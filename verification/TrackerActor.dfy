/**
 The actor that owns the target tracker: it wakes up on a message or a deadline, evolves the tracker to the
 current time, serves the message and publishes the result.
 */
module TrackerActor {
  import opened Options
  import opened TargetTracking
  import opened TrackerRuns

  /** `Tick` stands for a deadline and for a subscription: neither asks anything of the tracker. */
  datatype ActorMessage = Tick | RequireQueue(key: Key, extraLifetime: nat) | Stop

  /** One iteration of the actor: the time it read and the message it received. */
  datatype Wakeup = Wakeup(time: Instant, message: ActorMessage)

  datatype Update = Update(generation: nat, queues: map<Key, QueueStatus>)

  /** How the actor was started. */
  datatype Config = Config(delays: Delays, initialTime: Instant, initialKeys: seq<Key>)

  ghost function Publish(v: View): Update {
    Update(v.generation, v.state)
  }

  ghost function Serve(c: Config, v: View, w: Wakeup): (v': View)
    requires WellFormed(v)
    ensures WellFormed(v')
  {
    var evolved := EvolveView(c.delays, v, w.time);
    match w.message
    case RequireQueue(key, extra) => RequireView(evolved, w.time, extra, key)
    case _ => evolved
  }

  ghost function ActorView(c: Config, ws: seq<Wakeup>): (v: View)
    ensures WellFormed(v)
  {
    if ws == [] then StartedView(c.initialKeys, c.initialTime)
    else Serve(c, ActorView(c, ws[..|ws| - 1]), ws[|ws| - 1])
  }

  /** The updates published by the first iterations, the initial one included. */
  ghost predicate Published(c: Config, ws: seq<Wakeup>, updates: seq<Update>) {
    && 1 <= |updates| <= |ws| + 1
    && forall n :: 0 <= n < |updates| ==> updates[n] == Publish(ActorView(c, ws[..n]))
  }

  lemma PublishNext(c: Config, ws: seq<Wakeup>, updates: seq<Update>)
    requires Published(c, ws, updates) && |updates| <= |ws|
    ensures var n := |updates| - 1;
            var v := Serve(c, ActorView(c, ws[..n]), ws[n]);
            ActorView(c, ws[..n + 1]) == v && Published(c, ws, updates + [Publish(v)])
  {
    var n := |updates| - 1;
    assert ws[..n + 1][..n] == ws[..n];
  }

  /** One iteration of the actor's loop. */
  method Iterate(c: Config, tracker: TargetTracker, w: Wakeup) returns (update: Update)
    requires tracker.Valid() && tracker.delays == c.delays
    modifies tracker
    ensures tracker.Valid()
    ensures tracker.CurrentView() == Serve(c, old(tracker.CurrentView()), w)
    ensures update == Publish(tracker.CurrentView())
  {
    tracker.EvolveUntil(w.time);
    if w.message.RequireQueue? {
      tracker.RequireQueue(w.time, w.message.extraLifetime, w.message.key);
    }
    update := Update(tracker.generation, tracker.state);
  }

  /** The actor's loop: it publishes once at the start and once an iteration, until it is told to stop. */
  method RunActor(c: Config, ws: seq<Wakeup>) returns (updates: seq<Update>)
    ensures Published(c, ws, updates)
    ensures forall n :: 0 <= n < |updates| - 2 ==> ws[n].message != Stop
    ensures |updates| <= |ws| ==> 2 <= |updates| && ws[|updates| - 2].message == Stop
  {
    var tracker := new TargetTracker(c.initialTime, c.initialKeys, c.delays);
    updates := [Update(tracker.generation, tracker.state)];
    ghost var v := tracker.CurrentView();
    var n := 0;
    while n < |ws|
      invariant 0 <= n <= |ws| && |updates| == n + 1
      invariant fresh(tracker) && tracker.Valid() && tracker.delays == c.delays
      invariant tracker.CurrentView() == v && v == ActorView(c, ws[..n])
      invariant Published(c, ws, updates)
      invariant forall m :: 0 <= m < n ==> ws[m].message != Stop
    {
      PublishNext(c, ws, updates);
      v := Serve(c, v, ws[n]);
      var update := Iterate(c, tracker, ws[n]);
      updates := updates + [update];
      if ws[n].message == Stop {
        return;
      }
      n := n + 1;
    }
  }

  ghost predicate Ordered(ws: seq<Wakeup>) {
    forall i, j :: 0 <= i < j < |ws| ==> ws[i].time <= ws[j].time
  }

  /**
   The reference: the schedule start of one key from the requests for that key alone.  Deadlines, requests
   for other keys and the moments at which the actor woke up do not appear in it.
   */
  ghost function RequestedStart(c: Config, ws: seq<Wakeup>, k: Key): Option<Instant> {
    if ws == [] then (if k in c.initialKeys then Some(c.initialTime) else None) else
      var before, w := RequestedStart(c, ws[..|ws| - 1], k), ws[|ws| - 1];
      if !(w.message.RequireQueue? && w.message.key == k) then before
      else if before.Some? && w.time < before.value + c.delays.unbind + c.delays.delete then Some(w.time)
      else Some(w.time + w.message.extraLifetime)
  }

  lemma ServeAtKey(c: Config, v: View, w: Wakeup, k: Key)
    requires WellFormed(v)
    ensures var evolved := EvolveKey(c.delays, At(v, k), w.time);
            At(Serve(c, v, w), k) == if w.message.RequireQueue? && w.message.key == k
                                     then RequireKey(evolved, w.time, w.message.extraLifetime) else evolved
  {
  }

  /** The tracker forgets a start only once it has expired, and never unbinds a queue early. */
  ghost predicate Remembers(delays: Delays, kv: KeyView, s: Option<Instant>, now: Instant) {
    && kv.start.Some? == kv.status.Some?
    && (kv.start.Some? ==> s == kv.start)
    && (kv.start.None? && s.Some? ==> s.value + delays.unbind + delays.delete <= now)
    && (kv.status == Some(Unbound) ==> kv.start.value + delays.unbind <= now)
  }

  lemma {:induction false} ActorRemembers(c: Config, ws: seq<Wakeup>, k: Key, now: Instant)
    requires Ordered(ws) && (ws != [] ==> ws[|ws| - 1].time <= now)
    ensures Remembers(c.delays, At(ActorView(c, ws), k), RequestedStart(c, ws, k), now)
  {
    if ws != [] {
      var shorter, w := ws[..|ws| - 1], ws[|ws| - 1];
      ActorRemembers(c, shorter, k, w.time);
      ServeAtKey(c, ActorView(c, shorter), w, k);
    }
  }

  lemma RememberedIsScheduled(delays: Delays, kv: KeyView, s: Option<Instant>, now: Instant)
    requires Remembers(delays, kv, s, now)
    ensures EvolveKey(delays, kv, now).status == Scheduled(delays, s, now)
  {
  }

  /**
   What the actor publishes after an iteration is, for every key, the status its requests schedule at the
   time of that iteration; a key required in that very iteration is active.
   */
  lemma PublishedAsRequested(c: Config, ws: seq<Wakeup>, k: Key)
    requires ws != [] && Ordered(ws)
    ensures var w := ws[|ws| - 1];
            Lookup(Publish(ActorView(c, ws)).queues, k)
            == if w.message.RequireQueue? && w.message.key == k then Some(Active)
               else Scheduled(c.delays, RequestedStart(c, ws, k), w.time)
  {
    var shorter, w := ws[..|ws| - 1], ws[|ws| - 1];
    ActorRemembers(c, shorter, k, w.time);
    ServeAtKey(c, ActorView(c, shorter), w, k);
    RememberedIsScheduled(c.delays, At(ActorView(c, shorter), k), RequestedStart(c, shorter, k), w.time);
    assert Lookup(Publish(ActorView(c, ws)).queues, k) == At(ActorView(c, ws), k).status;
  }

  /** In plain times: what the actor publishes of a key it was not asked for in that very iteration. */
  lemma PublishedTimesAsRequested(c: Config, ws: seq<Wakeup>, k: Key)
    requires ws != [] && Ordered(ws)
    requires var w := ws[|ws| - 1]; !(w.message.RequireQueue? && w.message.key == k)
    ensures var published, start, now :=
              Lookup(Publish(ActorView(c, ws)).queues, k), RequestedStart(c, ws, k), ws[|ws| - 1].time;
            && (published == Some(Active) <==> start.Some? && now < start.value + c.delays.unbind)
            && (published == Some(Unbound) <==>
                  start.Some? && start.value + c.delays.unbind <= now < start.value + c.delays.unbind + c.delays.delete)
            && (published == None <==> start.None? || start.value + c.delays.unbind + c.delays.delete <= now)
  {
    PublishedAsRequested(c, ws, k);
  }

  /**
   Over every run of the actor, a request takes active time away from its own key exactly when the schedule an
   earlier request set for that key has not started yet.
   */
  lemma RequestShortensIff(c: Config, ws: seq<Wakeup>, w: Wakeup)
    requires w.message.RequireQueue?
    ensures var k := w.message.key;
            var without, with := RequestedStart(c, ws, k), RequestedStart(c, ws + [w], k);
            Shortens(c.delays, without, with, w.time) <==> without.Some? && w.time < without.value
  {
    var k := w.message.key;
    var without, with := RequestedStart(c, ws, k), RequestedStart(c, ws + [w], k);
    assert (ws + [w])[..|ws|] == ws;
    if without.Some? && w.time < without.value {
      assert Shortened(c.delays, without, with, w.time + c.delays.unbind);
    }
  }

  lemma {:induction false} ActorGenerations(c: Config, ws: seq<Wakeup>, i: nat)
    requires i <= |ws|
    ensures var early, late := ActorView(c, ws[..i]), ActorView(c, ws);
            early.generation <= late.generation
            && (early.generation == late.generation ==> early.state == late.state)
  {
    if i == |ws| {
      assert ws[..i] == ws;
    } else {
      var shorter, w := ws[..|ws| - 1], ws[|ws| - 1];
      ActorGenerations(c, shorter, i);
      assert shorter[..i] == ws[..i];
      var v := ActorView(c, shorter);
      StepGeneration(c.delays, v, Evolve(w.time));
      if w.message.RequireQueue? {
        StepGeneration(c.delays, EvolveView(c.delays, v, w.time),
                       Require(w.time, w.message.extraLifetime, w.message.key));
      }
    }
  }

  lemma StepGeneration(delays: Delays, v: View, e: Event)
    requires WellFormed(v)
    ensures var v' := Apply(delays, v, e);
            v.generation <= v'.generation && (v.generation == v'.generation ==> v.state == v'.state)
  {
    GenerationCountsChanges(delays, v, e);
    var v' := Apply(delays, v, e);
    if v.generation == v'.generation {
      NoDifference(v.state, v'.state);
    }
  }

  /**
   The generation a request is answered with is one at which its queue is active: every update that carries
   that generation, before or after the answer, lists the key as active.
   */
  lemma AnsweredGenerationIsActive(c: Config, ws: seq<Wakeup>, n: nat, m: nat)
    requires n < |ws| && m <= |ws| && ws[n].message.RequireQueue?
    requires Publish(ActorView(c, ws[..m])).generation == Publish(ActorView(c, ws[..n + 1])).generation
    ensures Lookup(Publish(ActorView(c, ws[..m])).queues, ws[n].message.key) == Some(Active)
  {
    assert ws[..n + 1][..n] == ws[..n];
    if m <= n + 1 {
      assert ws[..n + 1][..m] == ws[..m];
      ActorGenerations(c, ws[..n + 1], m);
    } else {
      assert ws[..m][..n + 1] == ws[..n + 1];
      ActorGenerations(c, ws[..m], n + 1);
    }
  }
}
