/**
 The osrdyne target tracker: a timed state machine that decides, for every worker-group key, whether its
 request queue should be active, unbound or deleted.

 The class keeps the five structures of the program; `View` is what the rest of the system can observe of
 them, and `RequireView` / `EvolveView` say what each operation does to that view, one key at a time.
 */
module TargetTracking {
  import opened Options

  datatype Key = Key(encoded: string)
  type Instant = int
  type Index = nat

  datatype QueueStatus = Active | Unbound

  /** The delay from the schedule start to unbinding, then from unbinding to deletion. */
  datatype Delays = Delays(unbind: nat, delete: nat)

  function Next(status: QueueStatus): Option<QueueStatus> {
    match status
    case Active => Some(Unbound)
    case Unbound => None
  }

  function EventTime(delays: Delays, start: Instant, status: Option<QueueStatus>): Instant {
    match status
    case Some(Active) => start
    case Some(Unbound) => start + delays.unbind
    case None => start + delays.unbind + delays.delete
  }

  /** The schedule itself: the status at time `now` of a queue whose schedule starts at `start`. */
  function StatusAt(delays: Delays, start: Instant, now: Instant): Option<QueueStatus> {
    if now < start + delays.unbind then Some(Active)
    else if now < start + delays.unbind + delays.delete then Some(Unbound)
    else None
  }

  /** The loop of the program: it follows the chain of statuses until the next event is in the future. */
  method ExpectedStatus(delays: Delays, start: Instant, now: Instant) returns (r: Option<QueueStatus>)
    ensures r == StatusAt(delays, start, now)
  {
    var status := Active;
    while true
      invariant status == Unbound ==> start + delays.unbind <= now
      decreases if status == Active then 1 else 0
    {
      var newStatus := Next(status);
      if now < EventTime(delays, start, newStatus) {
        return Some(status);
      }
      if newStatus.None? {
        return None;
      }
      status := newStatus.value;
    }
  }

  // ---------------------------------------------------------------------------------------------
  // The observable view and what each operation does to it
  // ---------------------------------------------------------------------------------------------

  datatype View = View(starts: map<Key, Instant>, state: map<Key, QueueStatus>, generation: nat)

  ghost predicate WellFormed(v: View) {
    v.starts.Keys == v.state.Keys
  }

  function Lookup<V>(m: map<Key, V>, k: Key): Option<V> {
    if k in m then Some(m[k]) else None
  }

  /** One queue moved to time `now`: nothing happens before its next event, then it jumps to its schedule. */
  function Advance(delays: Delays, start: Instant, status: QueueStatus, now: Instant): Option<QueueStatus> {
    if now < EventTime(delays, start, Next(status)) then Some(status) else StatusAt(delays, start, now)
  }

  ghost function ChangedKeys(delays: Delays, v: View, now: Instant): set<Key>
    requires WellFormed(v)
  {
    set k | k in v.state && Advance(delays, v.starts[k], v.state[k], now) != Some(v.state[k])
  }

  ghost function EvolveView(delays: Delays, v: View, now: Instant): View
    requires WellFormed(v)
  {
    var kept := set k | k in v.state && Advance(delays, v.starts[k], v.state[k], now).Some?;
    View(map k | k in kept :: v.starts[k],
         map k | k in kept :: Advance(delays, v.starts[k], v.state[k], now).value,
         v.generation + |ChangedKeys(delays, v, now)|)
  }

  ghost function RequireView(v: View, at: Instant, extraLifetime: nat, key: Key): View
    requires WellFormed(v)
  {
    View(v.starts[key := if key in v.starts then at else at + extraLifetime],
         v.state[key := Active],
         if Lookup(v.state, key) == Some(Active) then v.generation else v.generation + 1)
  }

  /** Every key of `keys` freshly required at `at`, at generation zero. */
  ghost function StartedView(keys: seq<Key>, at: Instant): View {
    View(map k | k in keys :: at, map k | k in keys :: Active, 0)
  }

  lemma StartedStep(v: View, keys: seq<Key>, n: nat, at: Instant)
    requires n < |keys| && v.(generation := 0) == StartedView(keys[..n], at)
    ensures RequireView(v, at, 0, keys[n]).(generation := 0) == StartedView(keys[..n + 1], at)
  {
  }

  // How `EvolveView` is reached one key at a time

  ghost predicate KeyKept(v: View, v': View, k: Key) {
    Lookup(v'.state, k) == Lookup(v.state, k) && Lookup(v'.starts, k) == Lookup(v.starts, k)
  }

  ghost predicate KeyMoved(delays: Delays, v: View, v': View, now: Instant, k: Key)
    requires WellFormed(v)
  {
    && k in v.state
    && Lookup(v'.state, k) == Advance(delays, v.starts[k], v.state[k], now)
    && Lookup(v'.starts, k) == if k in v'.state then Some(v.starts[k]) else None
  }

  /** The due transition of `key` and nothing else. */
  ghost predicate StepOne(delays: Delays, v: View, v': View, now: Instant, key: Key)
    requires WellFormed(v)
  {
    && key in ChangedKeys(delays, v, now)
    && KeyMoved(delays, v, v', now, key)
    && (forall k :: k != key ==> KeyKept(v, v', k))
    && v'.generation == v.generation + 1
  }

  /** The transitions of the keys in `done` and nothing else. */
  ghost predicate Evolving(delays: Delays, v: View, v': View, now: Instant, done: set<Key>)
    requires WellFormed(v)
  {
    && done <= ChangedKeys(delays, v, now)
    && (forall k :: k in done ==> KeyMoved(delays, v, v', now, k))
    && (forall k :: k !in done ==> KeyKept(v, v', k))
    && v'.generation == v.generation + |done|
  }

  /** A key already moved to `now` has nothing due, so each step moves a key that is not done. */
  lemma EvolvingStep(delays: Delays, v: View, mid: View, v': View, now: Instant, done: set<Key>, key: Key)
    requires WellFormed(v) && WellFormed(mid)
    requires Evolving(delays, v, mid, now, done) && StepOne(delays, mid, v', now, key)
    ensures key !in done && Evolving(delays, v, v', now, done + {key})
  {
    assert key in mid.state;
    assert key !in done by {
      if KeyMoved(delays, v, mid, now, key) {
        assert false;
      }
    }
    assert KeyKept(v, mid, key);
    assert KeyMoved(delays, v, v', now, key);
    forall k | k in done + {key} ensures KeyMoved(delays, v, v', now, k) {
      if k != key {
        assert KeyMoved(delays, v, mid, now, k) && KeyKept(mid, v', k);
      }
    }
    forall k | k !in done + {key} ensures KeyKept(v, v', k) {
      assert KeyKept(v, mid, k) && KeyKept(mid, v', k);
    }
  }

  /** When nothing is due any more, every key has been moved: the result is `EvolveView`. */
  lemma EvolvingEnds(delays: Delays, v: View, v': View, now: Instant, done: set<Key>)
    requires WellFormed(v) && WellFormed(v')
    requires Evolving(delays, v, v', now, done)
    requires forall k :: k in v'.state ==> now < EventTime(delays, v'.starts[k], Next(v'.state[k]))
    ensures v' == EvolveView(delays, v, now)
  {
    var r := EvolveView(delays, v, now);
    forall k
      ensures k in v.state ==> KeyMoved(delays, v, v', now, k)
      ensures k in ChangedKeys(delays, v, now) ==> k in done
      ensures k in v'.state ==> k in v.state
    {
      if k in done {
        assert KeyMoved(delays, v, v', now, k);
      } else {
        assert KeyKept(v, v', k);
      }
    }
    assert done == ChangedKeys(delays, v, now);
    assert v'.state == r.state;
    assert v'.starts == r.starts;
  }

  // ---------------------------------------------------------------------------------------------
  // The tracker's tables and their consistency
  // ---------------------------------------------------------------------------------------------

  datatype Queue = Queue(key: Key, scheduleStart: Instant)

  /**
   The tables of the tracker as a value.  `queues` is the arena: indices below `nextIndex` may be in use, the
   others never were.  `planned` is the priority queue: at most one entry an index, smallest instant first.
   */
  datatype Tables = Tables(
    queues: map<Index, Queue>,
    nextIndex: Index,
    queuesByKey: map<Key, Index>,
    planned: map<Index, Instant>,
    state: map<Key, QueueStatus>,
    generation: nat)

  /** The arena, the key index and the published state describe the same queues. */
  ghost predicate Indexed(t: Tables) {
    && t.queuesByKey.Keys == t.state.Keys
    && (forall k :: k in t.queuesByKey ==> t.queuesByKey[k] in t.queues && t.queues[t.queuesByKey[k]].key == k)
    && (forall i :: i in t.queues ==>
          i < t.nextIndex && t.queues[i].key in t.queuesByKey && t.queuesByKey[t.queues[i].key] == i)
  }

  /** The time of the next event of queue `i`. */
  ghost function PlannedTime(delays: Delays, t: Tables, i: Index): Instant
    requires Indexed(t) && i in t.queues
  {
    EventTime(delays, t.queues[i].scheduleStart, Next(t.state[t.queues[i].key]))
  }

  /** Every queue is planned, at the time of its next event. */
  ghost predicate Consistent(delays: Delays, t: Tables) {
    && Indexed(t)
    && t.planned.Keys == t.queues.Keys
    && forall i :: i in t.queues ==> t.planned[i] == PlannedTime(delays, t, i)
  }

  ghost function ViewOf(t: Tables): (v: View)
    requires Indexed(t)
    ensures WellFormed(v)
  {
    View(map k | k in t.queuesByKey :: t.queues[t.queuesByKey[k]].scheduleStart, t.state, t.generation)
  }

  /** The queues whose next event is due at `now`: what `EvolveUntil` has left to do. */
  ghost function Due(t: Tables, now: Instant): set<Index> {
    set i | i in t.planned && t.planned[i] <= now
  }

  /** Rewriting one queue's start and status and replanning it keeps the tables consistent. */
  lemma ReplanKeepsConsistent(delays: Delays, t: Tables, t': Tables, i: Index, start: Instant, status: QueueStatus)
    requires Consistent(delays, t) && i in t.queues
    requires t'.queues == t.queues[i := Queue(t.queues[i].key, start)]
    requires t'.nextIndex == t.nextIndex && t'.queuesByKey == t.queuesByKey
    requires t'.state == t.state[t.queues[i].key := status]
    requires t'.planned == t.planned[i := EventTime(delays, start, Next(status))]
    ensures Consistent(delays, t')
    ensures ViewOf(t').starts == ViewOf(t).starts[t.queues[i].key := start]
  {
    assert Indexed(t');
    forall j | j in t'.queues
      ensures t'.planned[j] == PlannedTime(delays, t', j)
    {
      assert j != i ==> t.planned[j] == PlannedTime(delays, t, j);
    }
  }

  lemma GenerationIsFree(delays: Delays, t: Tables, generation: nat)
    requires Consistent(delays, t)
    ensures Consistent(delays, t.(generation := generation))
    ensures ViewOf(t.(generation := generation)) == ViewOf(t).(generation := generation)
  {
  }

  lemma InsertKeepsConsistent(delays: Delays, t: Tables, t': Tables, key: Key, start: Instant)
    requires Consistent(delays, t) && key !in t.queuesByKey
    requires t'.queues == t.queues[t.nextIndex := Queue(key, start)]
    requires t'.nextIndex == t.nextIndex + 1 && t'.queuesByKey == t.queuesByKey[key := t.nextIndex]
    requires t'.state == t.state[key := Active]
    requires t'.planned == t.planned[t.nextIndex := EventTime(delays, start, Next(Active))]
    ensures Consistent(delays, t')
    ensures ViewOf(t').starts == ViewOf(t).starts[key := start]
  {
    InsertKeepsIndexed(t, t', key, start);
    forall j | j in t'.queues
      ensures t'.planned[j] == PlannedTime(delays, t', j)
    {
      assert j != t.nextIndex ==> t.planned[j] == PlannedTime(delays, t, j);
    }
  }

  lemma InsertKeepsIndexed(t: Tables, t': Tables, key: Key, start: Instant)
    requires Indexed(t) && key !in t.queuesByKey
    requires t'.queues == t.queues[t.nextIndex := Queue(key, start)]
    requires t'.nextIndex == t.nextIndex + 1 && t'.queuesByKey == t.queuesByKey[key := t.nextIndex]
    requires t'.state == t.state[key := Active]
    ensures t.nextIndex !in t.queues && Indexed(t')
  {
  }

  lemma RemoveKeepsConsistent(delays: Delays, t: Tables, t': Tables, i: Index)
    requires Consistent(delays, t) && i in t.queues
    requires t'.queues == t.queues - {i}
    requires t'.nextIndex == t.nextIndex && t'.queuesByKey == t.queuesByKey - {t.queues[i].key}
    requires t'.state == t.state - {t.queues[i].key}
    requires t'.planned == t.planned - {i}
    ensures Consistent(delays, t')
    ensures ViewOf(t').starts == ViewOf(t).starts - {t.queues[i].key}
  {
    assert Indexed(t');
    forall j | j in t'.queues
      ensures t'.planned[j] == PlannedTime(delays, t', j)
    {
      assert t.planned[j] == PlannedTime(delays, t, j);
    }
  }

  /** Replanning or removing a due queue takes it, and only it, out of the due set. */
  lemma DueShrinks(t: Tables, t': Tables, now: Instant, i: Index)
    requires i in Due(t, now)
    requires i in t'.planned ==> now < t'.planned[i]
    requires t'.planned - {i} == t.planned - {i}
    ensures Due(t', now) == Due(t, now) - {i}
  {
    forall j
      ensures j in Due(t', now) <==> j in Due(t, now) - {i}
    {
      if j != i {
        assert j in t'.planned <==> j in t'.planned - {i};
        assert j in t.planned <==> j in t.planned - {i};
        assert j in t.planned ==> t.planned[j] == (t.planned - {i})[j] == (t'.planned - {i})[j];
      }
    }
  }

  /** What applying the due transition of queue `i` leaves in the tables. */
  ghost predicate Transitioned(delays: Delays, t: Tables, t': Tables, now: Instant, i: Index)
    requires i in t.queues
  {
    var q := t.queues[i];
    && t'.nextIndex == t.nextIndex
    && t'.generation == t.generation + 1
    && match StatusAt(delays, q.scheduleStart, now)
       case Some(status) =>
         && t'.queues == t.queues
         && t'.queuesByKey == t.queuesByKey
         && t'.state == t.state[q.key := status]
         && t'.planned == t.planned[i := EventTime(delays, q.scheduleStart, Next(status))]
       case None =>
         && t'.queues == t.queues - {i}
         && t'.queuesByKey == t.queuesByKey - {q.key}
         && t'.state == t.state - {q.key}
         && t'.planned == t.planned - {i}
  }

  lemma TransitionIsStep(delays: Delays, t: Tables, t': Tables, now: Instant, i: Index)
    requires Consistent(delays, t) && i in Due(t, now) && Transitioned(delays, t, t', now, i)
    ensures Consistent(delays, t')
    ensures Due(t', now) == Due(t, now) - {i}
    ensures StepOne(delays, ViewOf(t), ViewOf(t'), now, t.queues[i].key)
  {
    var q := t.queues[i];
    var status := StatusAt(delays, q.scheduleStart, now);
    if status.Some? {
      assert t.queues == t.queues[i := Queue(q.key, q.scheduleStart)];
      ReplanKeepsConsistent(delays, t, t', i, q.scheduleStart, status.value);
    } else {
      RemoveKeepsConsistent(delays, t, t', i);
    }
    DueShrinks(t, t', now, i);
    DueTransitionIsStep(delays, t, t', now, i);
  }

  lemma DueTransitionIsStep(delays: Delays, t: Tables, t': Tables, now: Instant, i: Index)
    requires Consistent(delays, t) && Consistent(delays, t') && i in Due(t, now)
    requires t'.generation == t.generation + 1
    requires var q := t.queues[i];
             match StatusAt(delays, q.scheduleStart, now)
             case Some(status) =>
               t'.state == t.state[q.key := status] && ViewOf(t').starts == ViewOf(t).starts[q.key := q.scheduleStart]
             case None =>
               t'.state == t.state - {q.key} && ViewOf(t').starts == ViewOf(t).starts - {q.key}
    ensures StepOne(delays, ViewOf(t), ViewOf(t'), now, t.queues[i].key)
  {
    assert t.planned[i] == PlannedTime(delays, t, i);
    var v, v', key := ViewOf(t), ViewOf(t'), t.queues[i].key;
    assert v.starts[key] == t.queues[i].scheduleStart;
    assert KeyMoved(delays, v, v', now, key);
    assert forall k :: k != key ==> KeyKept(v, v', k);
  }

  // ---------------------------------------------------------------------------------------------
  // The tracker
  // ---------------------------------------------------------------------------------------------

  class TargetTracker {
    const delays: Delays
    var queues: map<Index, Queue>
    var nextIndex: Index
    var queuesByKey: map<Key, Index>
    var plannedTransitions: map<Index, Instant>
    var state: map<Key, QueueStatus>
    var generation: nat

    ghost function Contents(): Tables
      reads this
    {
      Tables(queues, nextIndex, queuesByKey, plannedTransitions, state, generation)
    }

    ghost predicate Valid()
      reads this
    {
      Consistent(delays, Contents())
    }

    ghost function CurrentView(): View
      requires Valid()
      reads this
    {
      ViewOf(Contents())
    }

    /** A tracker that requires every initial key at `initialTime`, at generation zero. */
    constructor (initialTime: Instant, initialKeys: seq<Key>, delays: Delays)
      ensures Valid() && this.delays == delays
      ensures CurrentView() == StartedView(initialKeys, initialTime)
    {
      this.delays := delays;
      queues := map[];
      nextIndex := 0;
      queuesByKey := map[];
      plannedTransitions := map[];
      state := map[];
      generation := 0;
      new;
      ghost var t := Contents();
      assert ViewOf(t) == StartedView([], initialTime);
      RequireInitial(initialTime, initialKeys);
    }

    method RequireInitial(initialTime: Instant, initialKeys: seq<Key>)
      requires Valid() && CurrentView() == StartedView([], initialTime)
      modifies this
      ensures Valid()
      ensures CurrentView() == StartedView(initialKeys, initialTime)
    {
      ghost var v := CurrentView();
      for n := 0 to |initialKeys|
        invariant Valid() && v == CurrentView()
        invariant v.(generation := 0) == StartedView(initialKeys[..n], initialTime)
      {
        StartedStep(v, initialKeys, n, initialTime);
        RequireQueue(initialTime, 0, initialKeys[n]);
        v := RequireView(v, initialTime, 0, initialKeys[n]);
      }
      ghost var t := Contents();
      GenerationIsFree(delays, t, 0);
      generation := 0;
      assert Contents() == t.(generation := 0);
      assert initialKeys[..|initialKeys|] == initialKeys;
    }

    /** Plans the next event of a queue, moving its entry when there is one. */
    method QueueUpdateTransition(i: Index)
      requires i in queues && queues[i].key in state
      modifies this`plannedTransitions
      ensures plannedTransitions ==
              old(plannedTransitions)[i := EventTime(delays, queues[i].scheduleStart, Next(state[queues[i].key]))]
    {
      var queue := queues[i];
      var transitionTime := EventTime(delays, queue.scheduleStart, Next(state[queue.key]));
      plannedTransitions := plannedTransitions[i := transitionTime];
    }

    method RequireQueue(at: Instant, extraLifetime: nat, key: Key)
      requires Valid()
      modifies this
      ensures Valid()
      ensures CurrentView() == RequireView(old(CurrentView()), at, extraLifetime, key)
    {
      ghost var before := Contents();
      var i: Index;
      if key in queuesByKey {
        i := queuesByKey[key];
        queues := queues[i := queues[i].(scheduleStart := at)];
        if state[key] != Active {
          state := state[key := Active];
          generation := generation + 1;
        }
        QueueUpdateTransition(i);
        assert state == before.state[key := Active];
        ReplanKeepsConsistent(delays, before, Contents(), i, at, Active);
      } else {
        i := nextIndex;
        nextIndex := nextIndex + 1;
        queues := queues[i := Queue(key, at + extraLifetime)];
        queuesByKey := queuesByKey[key := i];
        state := state[key := Active];
        generation := generation + 1;
        QueueUpdateTransition(i);
        InsertKeepsConsistent(delays, before, Contents(), key, at + extraLifetime);
      }
    }

    /** Peeks at the planned transition with the smallest instant. */
    method Peek() returns (r: Option<(Index, Instant)>)
      ensures r.None? <==> plannedTransitions == map[]
      ensures r.Some? ==> r.value.0 in plannedTransitions && plannedTransitions[r.value.0] == r.value.1
      ensures r.Some? ==> forall j :: j in plannedTransitions ==> r.value.1 <= plannedTransitions[j]
    {
      var todo := plannedTransitions.Keys;
      if todo == {} {
        assert plannedTransitions == map[];
        return None;
      }
      var best :| best in todo;
      todo := todo - {best};
      while todo != {}
        invariant best in plannedTransitions && todo <= plannedTransitions.Keys
        invariant forall j :: j in plannedTransitions && j !in todo ==>
                    plannedTransitions[best] <= plannedTransitions[j]
        decreases todo
      {
        var j :| j in todo;
        if plannedTransitions[j] < plannedTransitions[best] {
          best := j;
        }
        todo := todo - {j};
      }
      return Some((best, plannedTransitions[best]));
    }

    /** The deadline is the earliest next event of any queue, and there is one unless there is no queue. */
    method Deadline() returns (r: Option<Instant>)
      requires Valid()
      ensures r.None? <==> state == map[]
      ensures r.Some? ==> forall k :: k in state ==>
                r.value <= EventTime(delays, CurrentView().starts[k], Next(state[k]))
      ensures r.Some? ==>
                exists k :: k in state && r.value == EventTime(delays, CurrentView().starts[k], Next(state[k]))
    {
      var top := Peek();
      if top.None? {
        return None;
      }
      r := Some(top.value.1);
      assert queues[top.value.0].key in state;
    }

    /** Applies the due transition of one queue; the program's "inconsistent state" branch is dead. */
    method QueueApplyTransition(at: Instant, i: Index)
      requires Valid() && i in Due(Contents(), at)
      modifies this
      ensures Valid()
      ensures Due(Contents(), at) == old(Due(Contents(), at)) - {i}
      ensures StepOne(delays, old(CurrentView()), CurrentView(), at, old(queues[i].key))
    {
      ghost var before := Contents();
      assert before.planned[i] == PlannedTime(delays, before, i);
      var queue := queues[i];
      var current := state[queue.key];
      var expected := ExpectedStatus(delays, queue.scheduleStart, at);
      if Some(current) == expected {
        assert false;
      }
      if expected.Some? {
        state := state[queue.key := expected.value];
        generation := generation + 1;
        QueueUpdateTransition(i);
        TransitionIsStep(delays, before, Contents(), at, i);
        return;
      }
      plannedTransitions := plannedTransitions - {i};
      queuesByKey := queuesByKey - {queue.key};
      state := state - {queue.key};
      generation := generation + 1;
      queues := queues - {i};
      TransitionIsStep(delays, before, Contents(), at, i);
    }

    /** Moves every queue to time `now`; the due set strictly shrinks, so the loop ends. */
    method EvolveUntil(now: Instant)
      requires Valid()
      modifies this
      ensures Valid()
      ensures CurrentView() == EvolveView(delays, old(CurrentView()), now)
      ensures forall k :: k in state ==> now < EventTime(delays, CurrentView().starts[k], Next(state[k]))
    {
      ghost var before := CurrentView();
      ghost var done: set<Key> := {};
      while true
        invariant Valid()
        invariant Evolving(delays, before, CurrentView(), now, done)
        decreases Due(Contents(), now)
      {
        var top := Peek();
        if top.None? || now < top.value.1 {
          break;
        }
        var i := top.value.0;
        ghost var mid, key := CurrentView(), queues[i].key;
        QueueApplyTransition(now, i);
        EvolvingStep(delays, before, mid, CurrentView(), now, done, key);
        done := done + {key};
      }
      forall k | k in state
        ensures now < EventTime(delays, CurrentView().starts[k], Next(state[k]))
      {
        var t, i := Contents(), queuesByKey[k];
        assert t.planned[i] == PlannedTime(delays, t, i);
      }
      EvolvingEnds(delays, before, CurrentView(), now, done);
    }
  }
}
