/**
 The reconciler of the request queues: it spawns one job for every queue whose target changes, aborts the
 job it replaces, and reports what the finished jobs have done.
 */
module QueueController {
  import opened Options
  import opened TargetTracking
  import opened TrackerActor

  /** The status a job gives its queue; `None` deletes the queue. */
  type Goal = Option<QueueStatus>

  datatype Job = Job(id: nat, key: Key, goal: Goal)

  /**
   The controller.  `jobs` are the jobs spawned and not yet joined, in spawn order; `handles` is the
   program's map from a key to the job it would abort; `aborted` are the jobs told to stop.
   */
  datatype Controller = Controller(
    jobs: seq<Job>,
    handles: map<Key, nat>,
    aborted: set<nat>,
    nextId: nat,
    target: Update,
    reported: map<Key, QueueStatus>,
    reportedGeneration: nat)

  /** The goal of the latest outstanding job of a key. */
  function LatestGoal(jobs: seq<Job>, k: Key): Option<Goal> {
    if jobs == [] then None
    else if jobs[|jobs| - 1].key == k then Some(jobs[|jobs| - 1].goal)
    else LatestGoal(jobs[..|jobs| - 1], k)
  }

  function Spawn(c: Controller, k: Key, goal: Goal): Controller {
    c.(jobs := c.jobs + [Job(c.nextId, k, goal)],
       handles := c.handles[k := c.nextId],
       aborted := if k in c.handles then c.aborted + {c.handles[k]} else c.aborted,
       nextId := c.nextId + 1)
  }

  function SpawnAll(c: Controller, keys: seq<Key>, goals: map<Key, QueueStatus>): Controller {
    if keys == [] then c
    else
      var k := keys[|keys| - 1];
      Spawn(SpawnAll(c, keys[..|keys| - 1], goals), k, Lookup(goals, k))
  }

  /** The keys are those the two targets disagree on, each once. */
  ghost predicate DiffOrder(old_: map<Key, QueueStatus>, new_: map<Key, QueueStatus>, keys: seq<Key>) {
    && (forall i, j :: 0 <= i < j < |keys| ==> keys[i] != keys[j])
    && forall k :: k in keys <==> Lookup(old_, k) != Lookup(new_, k)
  }

  /** A new target arrives: a job for each difference, in the given order. */
  function Change(c: Controller, target: Update, keys: seq<Key>): Controller {
    SpawnAll(c, keys, target.queues).(target := target, reportedGeneration := target.generation)
  }

  function Report(reported: map<Key, QueueStatus>, k: Key, goal: Goal): map<Key, QueueStatus> {
    if goal.Some? then reported[k := goal.value] else reported - {k}
  }

  /** Job number `i` of the outstanding ones has completed: what it did is reported. */
  function Join(c: Controller, i: nat): Controller
    requires i < |c.jobs|
  {
    var job := c.jobs[i];
    c.(jobs := c.jobs[..i] + c.jobs[i + 1..],
       handles := c.handles - {job.key},
       reported := Report(c.reported, job.key, job.goal))
  }

  /** No older job of the same key is outstanding. */
  predicate InOrder(c: Controller, i: nat)
    requires i < |c.jobs|
  {
    forall j :: 0 <= j < i ==> c.jobs[j].key != c.jobs[i].key
  }

  /** A newer job of the same key is outstanding. */
  predicate Superseded(c: Controller, i: nat)
    requires i < |c.jobs|
  {
    exists j :: i < j < |c.jobs| && c.jobs[j].key == c.jobs[i].key
  }

  /** The key of the joined job is not left to an older job that pursues something else. */
  predicate Harmless(c: Controller, i: nat)
    requires i < |c.jobs|
  {
    || Superseded(c, i)
    || var older := LatestGoal(c.jobs[..i], c.jobs[i].key);
       older.None? || older.value == c.jobs[i].goal
  }

  ghost predicate Quiet(jobs: seq<Job>, k: Key) {
    forall job :: job in jobs ==> job.key != k
  }

  // ---------------------------------------------------------------------------------------------
  // The control loop
  // ---------------------------------------------------------------------------------------------

  /** The controller before it spawns anything: it assumes that every existing queue is unbound. */
  function Assumed(initialKeys: set<Key>, target: Update): Controller {
    Controller([], map[], {}, 0, target, map k | k in initialKeys :: Unbound, target.generation)
  }

  /** A job for every existing queue the target does not want, then one for every queue it wants. */
  ghost predicate StartOrder(initialKeys: set<Key>, target: map<Key, QueueStatus>, keys: seq<Key>) {
    && (forall i, j :: 0 <= i < j < |keys| ==> keys[i] != keys[j])
    && (forall k :: k in keys <==> k in initialKeys || k in target)
    && forall i, j :: 0 <= i < j < |keys| && keys[i] in target ==> keys[j] in target
  }

  /** `order` goes on from `done` with the keys of the set that are not left to do, each once. */
  ghost predicate Enlarged(done: seq<Key>, keys: set<Key>, todo: set<Key>, order: seq<Key>) {
    && done <= order && todo <= keys
    && (forall i, j :: 0 <= i < j < |order| ==> order[i] != order[j])
    && (forall i :: |done| <= i < |order| ==> order[i] in keys)
    && (forall k :: k in order <==> k in done || (k in keys && k !in todo))
  }

  lemma EnlargedStep(done: seq<Key>, keys: set<Key>, todo: set<Key>, order: seq<Key>, k: Key)
    requires Enlarged(done, keys, todo, order) && k in todo && k !in done
    ensures Enlarged(done, keys, todo - {k}, order + [k])
  {
  }

  lemma SpawnOneMore(c: Controller, order: seq<Key>, goals: map<Key, QueueStatus>, k: Key)
    ensures SpawnAll(c, order + [k], goals) == Spawn(SpawnAll(c, order, goals), k, Lookup(goals, k))
  {
    assert (order + [k])[..|order|] == order;
  }

  class QueuesController {
    var jobs: seq<Job>
    var jobsByKey: map<Key, nat>
    var aborted: set<nat>
    var nextId: nat
    var target: Update
    var queues: map<Key, QueueStatus>
    var targetGeneration: nat

    ghost function Contents(): Controller
      reads this
    {
      Controller(jobs, jobsByKey, aborted, nextId, target, queues, targetGeneration)
    }

    constructor (initialKeys: set<Key>, target: Update)
      ensures Contents() == Assumed(initialKeys, target)
    {
      jobs, jobsByKey, aborted, nextId := [], map[], {}, 0;
      this.target, targetGeneration := target, target.generation;
      queues := map k | k in initialKeys :: Unbound;
    }

    /** The jobs spawned before the loop starts. */
    method Start(initialKeys: set<Key>) returns (ghost order: seq<Key>)
      requires Contents() == Assumed(initialKeys, target)
      modifies this`jobs, this`jobsByKey, this`aborted, this`nextId
      ensures StartOrder(initialKeys, target.queues, order)
      ensures Contents() == SpawnAll(Assumed(initialKeys, target), order, target.queues)
    {
      ghost var before := Contents();
      order := SpawnEach(initialKeys - target.queues.Keys, target.queues, before, []);
      order := SpawnEach(target.queues.Keys, target.queues, before, order);
    }

    /** Spawns a job for each key of a set, in any order. */
    method SpawnEach(keys: set<Key>, goals: map<Key, QueueStatus>, ghost from: Controller, ghost done: seq<Key>)
      returns (ghost order: seq<Key>)
      requires Contents() == SpawnAll(from, done, goals)
      requires forall i, j :: 0 <= i < j < |done| ==> done[i] != done[j]
      requires forall k :: k in done ==> k !in keys
      modifies this`jobs, this`jobsByKey, this`aborted, this`nextId
      ensures done <= order && Contents() == SpawnAll(from, order, goals)
      ensures forall i, j :: 0 <= i < j < |order| ==> order[i] != order[j]
      ensures forall i :: |done| <= i < |order| ==> order[i] in keys
      ensures forall k :: k in order <==> k in done || k in keys
    {
      var todo := keys;
      order := done;
      while todo != {}
        invariant Enlarged(done, keys, todo, order)
        invariant Contents() == SpawnAll(from, order, goals)
        decreases todo
      {
        var k :| k in todo;
        EnlargedStep(done, keys, todo, order, k);
        SpawnOneMore(from, order, goals, k);
        SpawnJob(k, Lookup(goals, k));
        todo, order := todo - {k}, order + [k];
      }
    }

    method SpawnJob(k: Key, goal: Goal)
      modifies this`jobs, this`jobsByKey, this`aborted, this`nextId
      ensures Contents() == Spawn(old(Contents()), k, goal)
    {
      jobs := jobs + [Job(nextId, k, goal)];
      if k in jobsByKey {
        aborted := aborted + {jobsByKey[k]};
      }
      jobsByKey := jobsByKey[k := nextId];
      nextId := nextId + 1;
    }

    /** The arm of the loop for a new target. */
    method OnTargetChanged(newTarget: Update) returns (ghost order: seq<Key>)
      modifies this
      ensures DiffOrder(old(target.queues), newTarget.queues, order)
      ensures Contents() == Change(old(Contents()), newTarget, order)
    {
      var changed := set k | k in target.queues.Keys + newTarget.queues.Keys
                             && Lookup(target.queues, k) != Lookup(newTarget.queues, k);
      order := SpawnEach(changed, newTarget.queues, Contents(), []);
      target := newTarget;
      targetGeneration := newTarget.generation;
    }

    /** One turn of the loop; tells whether it was a harmless one: whether it kept the chase up. */
    method OnEvent(e: ControlEvent) returns (harmless: bool)
      modifies this
      ensures Turn(old(Contents()), e, Contents())
      ensures harmless <==> HarmlessTurn(old(Contents()), e)
      ensures old(Chasing(Contents())) ==> (harmless <==> Chasing(Contents()))
    {
      ghost var before := Contents();
      if e.TargetArrives? {
        ghost var order := OnTargetChanged(e.target);
        if Chasing(before) {
          ChangeKeepsChasing(before, e.target, order);
        }
        harmless := true;
      } else if e.index < |jobs| {
        harmless := Harmless(Controller(jobs, jobsByKey, aborted, nextId, target, queues, targetGeneration), e.index);
        if Chasing(before) {
          JoinKeepsChasingIff(before, e.index);
        }
        OnJobJoined(e.index);
      } else {
        harmless := true;
      }
    }

    /** The arm of the loop for a job that completed. */
    method OnJobJoined(i: nat)
      requires i < |jobs|
      modifies this
      ensures Contents() == Join(old(Contents()), i)
    {
      var job := jobs[i];
      jobs := jobs[..i] + jobs[i + 1..];
      jobsByKey := jobsByKey - {job.key};
      queues := if job.goal.Some? then queues[job.key := job.goal.value] else queues - {job.key};
    }
  }

  // ---------------------------------------------------------------------------------------------
  // Convergence of the report
  // ---------------------------------------------------------------------------------------------

  /** What the report will say of a key once its outstanding jobs are joined in spawn order. */
  ghost function Pursued(c: Controller, k: Key): Goal {
    var goal := LatestGoal(c.jobs, k);
    if goal.Some? then goal.value else Lookup(c.reported, k)
  }

  /** Every key is where the target wants it, or its latest job is taking it there. */
  ghost predicate Chasing(c: Controller) {
    && c.reportedGeneration == c.target.generation
    && forall k :: Pursued(c, k) == Lookup(c.target.queues, k)
  }

  lemma {:induction false} LatestGoalOfConcat(a: seq<Job>, b: seq<Job>, k: Key)
    ensures LatestGoal(a + b, k) == if LatestGoal(b, k).Some? then LatestGoal(b, k) else LatestGoal(a, k)
  {
    if b == [] {
      assert a + b == a;
    } else {
      assert (a + b)[..|a + b| - 1] == a + b[..|b| - 1];
      LatestGoalOfConcat(a, b[..|b| - 1], k);
    }
  }

  lemma {:induction false} SpawnAllPursues(c: Controller, keys: seq<Key>, goals: map<Key, QueueStatus>, k: Key)
    ensures var c' := SpawnAll(c, keys, goals);
            && c'.target == c.target && c'.reported == c.reported && c'.reportedGeneration == c.reportedGeneration
            && Pursued(c', k) == if k in keys then Lookup(goals, k) else Pursued(c, k)
  {
    if keys != [] {
      var init, last := keys[..|keys| - 1], keys[|keys| - 1];
      SpawnAllPursues(c, init, goals, k);
      var mid := SpawnAll(c, init, goals);
      assert SpawnAll(c, keys, goals).jobs[..|mid.jobs|] == mid.jobs;
      assert keys == init + [last];
    }
  }

  lemma StartChases(initialKeys: set<Key>, target: Update, keys: seq<Key>)
    requires StartOrder(initialKeys, target.queues, keys)
    ensures Chasing(SpawnAll(Assumed(initialKeys, target), keys, target.queues))
  {
    var c := Assumed(initialKeys, target);
    SpawnAllPursues(c, keys, target.queues, Key(""));
    forall k
      ensures Pursued(SpawnAll(c, keys, target.queues), k) == Lookup(target.queues, k)
    {
      SpawnAllPursues(c, keys, target.queues, k);
    }
  }

  lemma ChangeKeepsChasing(c: Controller, target: Update, keys: seq<Key>)
    requires Chasing(c) && DiffOrder(c.target.queues, target.queues, keys)
    ensures Chasing(Change(c, target, keys))
  {
    forall k
      ensures Pursued(Change(c, target, keys), k) == Lookup(target.queues, k)
    {
      SpawnAllPursues(c, keys, target.queues, k);
      assert Pursued(c, k) == Lookup(c.target.queues, k);
    }
  }

  lemma {:induction false} NoJobNoGoal(jobs: seq<Job>, k: Key)
    ensures LatestGoal(jobs, k).None? <==> Quiet(jobs, k)
  {
    if jobs != [] {
      NoJobNoGoal(jobs[..|jobs| - 1], k);
      assert jobs == jobs[..|jobs| - 1] + [jobs[|jobs| - 1]];
    }
  }

  /** A join leaves what is pursued of the other keys. */
  lemma JoinPursuesOthers(c: Controller, i: nat, k: Key)
    requires i < |c.jobs| && k != c.jobs[i].key
    ensures Pursued(Join(c, i), k) == Pursued(c, k)
  {
    JoinedGoals(c, i, k);
  }

  /** The latest goal of a key before a join, from those of the jobs around the joined one. */
  lemma JoinedGoals(c: Controller, i: nat, k: Key)
    requires i < |c.jobs|
    ensures var before, after := LatestGoal(c.jobs[..i], k), LatestGoal(c.jobs[i + 1..], k);
            && LatestGoal(Join(c, i).jobs, k) == (if after.Some? then after else before)
            && LatestGoal(c.jobs, k) == if after.Some? then after
                                        else if c.jobs[i].key == k then Some(c.jobs[i].goal) else before
  {
    var job := c.jobs[i];
    var before, after := c.jobs[..i], c.jobs[i + 1..];
    assert c.jobs == (before + [job]) + after;
    LatestGoalOfConcat(before + [job], after, k);
    LatestGoalOfConcat(before, after, k);
    assert (before + [job])[..i] == before;
  }

  lemma SupersededIff(c: Controller, i: nat)
    requires i < |c.jobs|
    ensures Superseded(c, i) <==> LatestGoal(c.jobs[i + 1..], c.jobs[i].key).Some?
    ensures InOrder(c, i) <==> LatestGoal(c.jobs[..i], c.jobs[i].key).None?
  {
    var k := c.jobs[i].key;
    NoJobNoGoal(c.jobs[i + 1..], k);
    NoJobNoGoal(c.jobs[..i], k);
    assert forall j :: i < j < |c.jobs| ==> c.jobs[j] == c.jobs[i + 1..][j - i - 1];
    assert forall j :: 0 <= j < i ==> c.jobs[j] == c.jobs[..i][j];
  }

  /** A join keeps the controller chasing its target exactly when it is harmless. */
  lemma JoinKeepsChasingIff(c: Controller, i: nat)
    requires Chasing(c) && i < |c.jobs|
    ensures Chasing(Join(c, i)) <==> Harmless(c, i)
  {
    var job := c.jobs[i];
    SupersededIff(c, i);
    JoinedGoals(c, i, job.key);
    assert Pursued(c, job.key) == Lookup(c.target.queues, job.key);
    assert Chasing(Join(c, i)) ==> Pursued(Join(c, i), job.key) == Lookup(c.target.queues, job.key);
    forall k | k != job.key
      ensures Pursued(Join(c, i), k) == Lookup(c.target.queues, k)
    {
      JoinPursuesOthers(c, i, k);
      assert Pursued(c, k) == Lookup(c.target.queues, k);
    }
  }

  /** Joining the oldest outstanding job of a key, or any but the latest, is harmless. */
  lemma JoinsInOrderAreHarmless(c: Controller, i: nat)
    requires i < |c.jobs| && (InOrder(c, i) || Superseded(c, i))
    ensures Harmless(c, i)
  {
    SupersededIff(c, i);
  }

  /** With no job left, the report is the target. */
  lemma QuiescentReportIsTarget(c: Controller)
    requires Chasing(c) && c.jobs == []
    ensures c.reported == c.target.queues
  {
    forall k
      ensures k in c.reported <==> k in c.target.queues
      ensures k in c.reported && k in c.target.queues ==> c.reported[k] == c.target.queues[k]
    {
      assert Pursued(c, k) == Lookup(c.target.queues, k);
    }
  }

  // ---------------------------------------------------------------------------------------------
  // The controller driven by its events
  // ---------------------------------------------------------------------------------------------

  datatype ControlEvent = TargetArrives(target: Update) | JobCompletes(index: nat)

  function LastTarget(target: Update, events: seq<ControlEvent>): Update {
    if events == [] then target
    else if events[|events| - 1].TargetArrives? then events[|events| - 1].target
    else LastTarget(target, events[..|events| - 1])
  }

  /** What one turn of the loop does; a completion of no outstanding job does nothing. */
  ghost predicate Turn(c: Controller, e: ControlEvent, c': Controller) {
    match e
    case TargetArrives(u) => exists keys :: DiffOrder(c.target.queues, u.queues, keys) && c' == Change(c, u, keys)
    case JobCompletes(i) => c' == if i < |c.jobs| then Join(c, i) else c
  }

  predicate HarmlessTurn(c: Controller, e: ControlEvent) {
    e.JobCompletes? && e.index < |c.jobs| ==> Harmless(c, e.index)
  }

  /** The controller before each event and after the last one. */
  ghost predicate Trace(initialKeys: set<Key>, target: Update, events: seq<ControlEvent>, trace: seq<Controller>) {
    && |trace| == |events| + 1
    && if events == [] then Started(initialKeys, target, trace[0])
       else Trace(initialKeys, target, events[..|events| - 1], trace[..|events|])
            && Turn(trace[|events| - 1], events[|events| - 1], trace[|events|])
  }

  ghost predicate Started(initialKeys: set<Key>, target: Update, c: Controller) {
    exists keys :: StartOrder(initialKeys, target.queues, keys)
                   && c == SpawnAll(Assumed(initialKeys, target), keys, target.queues)
  }

  ghost predicate AllHarmless(events: seq<ControlEvent>, trace: seq<Controller>)
    requires |trace| == |events| + 1
  {
    events == [] ||
    (AllHarmless(events[..|events| - 1], trace[..|events|]) && HarmlessTurn(trace[|events| - 1], events[|events| - 1]))
  }

  ghost predicate AllChasing(trace: seq<Controller>)
    requires trace != []
  {
    Chasing(trace[|trace| - 1]) && (|trace| == 1 || AllChasing(trace[..|trace| - 1]))
  }

  /** `harmless` says that every join so far was harmless, which is that the target was chased all along. */
  ghost predicate Driven(initialKeys: set<Key>, target: Update, events: seq<ControlEvent>, trace: seq<Controller>, harmless: bool) {
    && Trace(initialKeys, target, events, trace)
    && (harmless <==> AllHarmless(events, trace))
    && (harmless <==> AllChasing(trace))
    && trace[|events|].target == LastTarget(target, events)
  }

  lemma DrivenStart(initialKeys: set<Key>, target: Update, keys: seq<Key>, c: Controller)
    requires StartOrder(initialKeys, target.queues, keys)
    requires c == SpawnAll(Assumed(initialKeys, target), keys, target.queues)
    ensures Driven(initialKeys, target, [], [c], true)
  {
    StartChases(initialKeys, target, keys);
    SpawnAllPursues(Assumed(initialKeys, target), keys, target.queues, Key(""));
  }

  lemma DrivenStep(initialKeys: set<Key>, target: Update, events: seq<ControlEvent>, trace: seq<Controller>, e: ControlEvent,
                   harmless: bool, c': Controller)
    requires Driven(initialKeys, target, events, trace, harmless) && Turn(trace[|events|], e, c')
    requires Chasing(trace[|events|]) ==> (HarmlessTurn(trace[|events|], e) <==> Chasing(c'))
    ensures Driven(initialKeys, target, events + [e], trace + [c'], harmless && HarmlessTurn(trace[|events|], e))
  {
    assert (events + [e])[..|events|] == events && (trace + [c'])[..|trace|] == trace;
  }

  lemma DrivenEnds(initialKeys: set<Key>, target: Update, events: seq<ControlEvent>, trace: seq<Controller>)
    requires Driven(initialKeys, target, events, trace, true) && trace[|events|].jobs == []
    ensures trace[|events|].reported == LastTarget(target, events).queues
  {
    assert Chasing(trace[|events|]);
    QuiescentReportIsTarget(trace[|events|]);
  }

  method Launch(initialKeys: set<Key>, target: Update) returns (c: QueuesController)
    ensures fresh(c) && Driven(initialKeys, target, [], [c.Contents()], true)
  {
    c := new QueuesController(initialKeys, target);
    ghost var order := c.Start(initialKeys);
    DrivenStart(initialKeys, target, order, c.Contents());
  }

  /**
   The control loop on a sequence of targets and completions.  It chases its target all along exactly when no
   join leaves a key to an older job with another goal; then, once no job is left, it reports the last target.
   */
  method RunController(initialKeys: set<Key>, target: Update, events: seq<ControlEvent>)
    returns (c: QueuesController, harmless: bool, ghost trace: seq<Controller>)
    ensures fresh(c) && Driven(initialKeys, target, events, trace, harmless) && trace[|events|] == c.Contents()
    ensures harmless && c.jobs == [] ==> c.queues == LastTarget(target, events).queues
  {
    c := Launch(initialKeys, target);
    trace := [c.Contents()];
    harmless := true;
    for n := 0 to |events|
      invariant fresh(c) && Driven(initialKeys, target, events[..n], trace, harmless) && trace[n] == c.Contents()
    {
      var good := c.OnEvent(events[n]);
      DrivenStep(initialKeys, target, events[..n], trace, events[n], harmless, c.Contents());
      assert events[..n + 1] == events[..n] + [events[n]];
      trace := trace + [c.Contents()];
      harmless := harmless && good;
    }
    assert events[..|events|] == events;
    if harmless && c.jobs == [] {
      DrivenEnds(initialKeys, target, events, trace);
    }
  }
}
