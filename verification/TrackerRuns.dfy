/**
 Whole runs of the target tracker: every sequence of requires and evolutions, compared with a reference that
 follows one key alone.
 */
module TrackerRuns {
  import opened Options
  import opened TargetTracking

  datatype Event = Require(at: Instant, extraLifetime: nat, key: Key) | Evolve(now: Instant)

  ghost const Nothing := View(map[], map[], 0)

  ghost function Apply(delays: Delays, v: View, e: Event): (v': View)
    requires WellFormed(v)
    ensures WellFormed(v')
  {
    match e
    case Require(at, extra, key) => RequireView(v, at, extra, key)
    case Evolve(now) => EvolveView(delays, v, now)
  }

  ghost function Run(delays: Delays, es: seq<Event>): (v: View)
    ensures WellFormed(v)
  {
    if es == [] then Nothing else Apply(delays, Run(delays, es[..|es| - 1]), es[|es| - 1])
  }

  // ---------------------------------------------------------------------------------------------
  // One key at a time
  // ---------------------------------------------------------------------------------------------

  /** What a view says of one key. */
  datatype KeyView = KeyView(start: Option<Instant>, status: Option<QueueStatus>)

  ghost function At(v: View, k: Key): KeyView {
    KeyView(Lookup(v.starts, k), Lookup(v.state, k))
  }

  ghost function EvolveKey(delays: Delays, kv: KeyView, now: Instant): KeyView {
    if kv.start.None? || kv.status.None? then kv else
      var status := Advance(delays, kv.start.value, kv.status.value, now);
      KeyView(if status.Some? then kv.start else None, status)
  }

  ghost function RequireKey(kv: KeyView, at: Instant, extra: nat): KeyView {
    KeyView(Some(if kv.start.Some? then at else at + extra), Some(Active))
  }

  ghost function ApplyKey(delays: Delays, kv: KeyView, e: Event, k: Key): KeyView {
    match e
    case Require(at, extra, key) => if key == k then RequireKey(kv, at, extra) else kv
    case Evolve(now) => EvolveKey(delays, kv, now)
  }

  /** Keys do not influence each other. */
  lemma ApplyAtKey(delays: Delays, v: View, e: Event, k: Key)
    requires WellFormed(v)
    ensures At(Apply(delays, v, e), k) == ApplyKey(delays, At(v, k), e, k)
  {
  }

  lemma RunAtKey(delays: Delays, es: seq<Event>, e: Event, k: Key)
    ensures At(Run(delays, es + [e]), k) == ApplyKey(delays, At(Run(delays, es), k), e, k)
  {
  }

  /** Two views are the same state as soon as they agree on every key. */
  lemma SameAtEveryKey(v: View, v': View)
    requires forall k :: At(v, k) == At(v', k)
    ensures v.state == v'.state && v.starts == v'.starts
  {
    assert forall k :: Lookup(v.state, k) == At(v, k).status;
    assert forall k :: Lookup(v'.state, k) == At(v', k).status;
    assert forall k :: Lookup(v.starts, k) == At(v, k).start;
    assert forall k :: Lookup(v'.starts, k) == At(v', k).start;
    SameLookups(v.state, v'.state);
    SameLookups(v.starts, v'.starts);
  }

  lemma SameLookups<V>(m: map<Key, V>, m': map<Key, V>)
    requires forall k :: Lookup(m, k) == Lookup(m', k)
    ensures m == m'
  {
    forall k
      ensures k in m <==> k in m'
      ensures k in m && k in m' ==> m[k] == m'[k]
    {
      assert Lookup(m, k) == Lookup(m', k);
    }
  }

  // ---------------------------------------------------------------------------------------------
  // Refinement of the schedule
  // ---------------------------------------------------------------------------------------------

  /**
   The reference: the schedule start of one key, from the events alone.  Only the requires of that key and
   the evolutions that find it expired matter.
   */
  ghost function KeyStart(delays: Delays, es: seq<Event>, k: Key): Option<Instant> {
    if es == [] then None else
      var before := KeyStart(delays, es[..|es| - 1], k);
      match es[|es| - 1]
      case Require(at, extra, key) =>
        if key != k then before else if before.Some? then Some(at) else Some(at + extra)
      case Evolve(now) =>
        if before.Some? && before.value + delays.unbind + delays.delete <= now then None else before
  }

  /** The status a schedule start stands for; a key without one has no queue. */
  function Scheduled(delays: Delays, start: Option<Instant>, now: Instant): Option<QueueStatus> {
    if start.Some? then StatusAt(delays, start.value, now) else None
  }

  /** The tracker keeps the reference start, and unbinds no queue early whatever the order of evolutions. */
  lemma {:induction false} FollowsReference(delays: Delays, es: seq<Event>, now: Instant, k: Key)
    requires forall i :: 0 <= i < |es| && es[i].Evolve? ==> es[i].now <= now
    ensures var kv := At(Run(delays, es), k);
            && kv.start == KeyStart(delays, es, k)
            && kv.start.Some? == kv.status.Some?
            && (kv.status == Some(Unbound) ==> kv.start.value + delays.unbind <= now)
  {
    if es != [] {
      var shorter, e := es[..|es| - 1], es[|es| - 1];
      FollowsReference(delays, shorter, now, k);
      assert es == shorter + [e];
      RunAtKey(delays, shorter, e, k);
    }
  }

  /**
   Refinement: after any run, an evolution to a time no earlier evolution exceeds publishes, for every key,
   exactly the status its schedule gives at that time, absence included.
   */
  lemma PublishedStateIsScheduled(delays: Delays, es: seq<Event>, now: Instant, k: Key)
    requires forall i :: 0 <= i < |es| && es[i].Evolve? ==> es[i].now <= now
    ensures Lookup(Run(delays, es + [Evolve(now)]).state, k)
         == Scheduled(delays, KeyStart(delays, es + [Evolve(now)], k), now)
  {
    FollowsReference(delays, es, now, k);
    RunAtKey(delays, es, Evolve(now), k);
    assert (es + [Evolve(now)])[..|es|] == es;
    assert At(Run(delays, es + [Evolve(now)]), k).status == Scheduled(delays, KeyStart(delays, es, k), now);
  }

  /**
   In plain times: after such a run a queue is published active until the unbind delay after its start, unbound from
   then until the delete delay after that, and not at all from then on.
   */
  lemma PublishedTimes(delays: Delays, es: seq<Event>, now: Instant, k: Key)
    requires forall i :: 0 <= i < |es| && es[i].Evolve? ==> es[i].now <= now
    ensures var published, start := Lookup(Run(delays, es + [Evolve(now)]).state, k), KeyStart(delays, es, k);
            && (published == Some(Active) <==> start.Some? && now < start.value + delays.unbind)
            && (published == Some(Unbound) <==>
                  start.Some? && start.value + delays.unbind <= now < start.value + delays.unbind + delays.delete)
            && (published == None <==> start.None? || start.value + delays.unbind + delays.delete <= now)
  {
    PublishedStateIsScheduled(delays, es, now, k);
    assert (es + [Evolve(now)])[..|es|] == es;
  }

  /** Evolving to `t1` and then to `t2` is evolving to `t2`. */
  lemma EvolutionsCollapse(delays: Delays, v: View, t1: Instant, t2: Instant)
    requires WellFormed(v) && t1 <= t2
    ensures var twice, direct := EvolveView(delays, EvolveView(delays, v, t1), t2), EvolveView(delays, v, t2);
            twice.state == direct.state && twice.starts == direct.starts
  {
    forall k
      ensures At(EvolveView(delays, EvolveView(delays, v, t1), t2), k) == At(EvolveView(delays, v, t2), k)
    {
      EvolutionsCollapseAtKey(delays, v, t1, t2, k);
    }
    SameAtEveryKey(EvolveView(delays, EvolveView(delays, v, t1), t2), EvolveView(delays, v, t2));
  }

  lemma EvolutionsCollapseAtKey(delays: Delays, v: View, t1: Instant, t2: Instant, k: Key)
    requires WellFormed(v) && t1 <= t2
    ensures At(EvolveView(delays, EvolveView(delays, v, t1), t2), k) == At(EvolveView(delays, v, t2), k)
  {
    ApplyAtKey(delays, v, Evolve(t1), k);
    ApplyAtKey(delays, v, Evolve(t2), k);
    ApplyAtKey(delays, EvolveView(delays, v, t1), Evolve(t2), k);
    var kv := At(v, k);
    assert kv.start.Some? == kv.status.Some?;
    assert EvolveKey(delays, EvolveKey(delays, kv, t1), t2) == EvolveKey(delays, kv, t2);
  }

  // ---------------------------------------------------------------------------------------------
  // Generations
  // ---------------------------------------------------------------------------------------------

  ghost function Differing(s: map<Key, QueueStatus>, s': map<Key, QueueStatus>): set<Key> {
    set k | k in s.Keys + s'.Keys && Lookup(s, k) != Lookup(s', k)
  }

  /** Every operation raises the generation by the number of keys whose status it changed. */
  lemma GenerationCountsChanges(delays: Delays, v: View, e: Event)
    requires WellFormed(v)
    ensures var v' := Apply(delays, v, e);
            v'.generation == v.generation + |Differing(v.state, v'.state)|
  {
    var v' := Apply(delays, v, e);
    match e
    case Require(at, extra, key) =>
      assert Differing(v.state, v'.state) == if Lookup(v.state, key) == Some(Active) then {} else {key};
    case Evolve(now) =>
      assert Differing(v.state, v'.state) == ChangedKeys(delays, v, now);
  }

  lemma NoDifference(s: map<Key, QueueStatus>, s': map<Key, QueueStatus>)
    requires |Differing(s, s')| == 0
    ensures s == s'
  {
    assert Differing(s, s') == {};
    forall k | k in s.Keys + s'.Keys
      ensures Lookup(s, k) == Lookup(s', k)
    {
      assert k !in Differing(s, s');
    }
    forall k ensures k in s <==> k in s' {
      if k in s.Keys + s'.Keys {
        assert Lookup(s, k) == Lookup(s', k);
      }
    }
  }

  /** Generations never decrease, and two moments of a run with the same generation have the same state. */
  lemma {:induction false} SameGenerationSameState(delays: Delays, es: seq<Event>, i: nat)
    requires i <= |es|
    ensures var early, late := Run(delays, es[..i]), Run(delays, es);
            early.generation <= late.generation
            && (early.generation == late.generation ==> early.state == late.state)
  {
    if i == |es| {
      assert es[..i] == es;
    } else {
      var shorter := es[..|es| - 1];
      SameGenerationSameState(delays, shorter, i);
      assert shorter[..i] == es[..i];
      GenerationCountsChanges(delays, Run(delays, shorter), es[|es| - 1]);
      var v, v' := Run(delays, shorter), Run(delays, es);
      if v.generation == v'.generation {
        NoDifference(v.state, v'.state);
      }
    }
  }

  // ---------------------------------------------------------------------------------------------
  // The documented schedule start
  // ---------------------------------------------------------------------------------------------

  /**
   The schedule start is documented as the last require time plus the extra lifetime.  That is what a
   require sets exactly when the key had no queue yet or there is no extra lifetime.
   */
  lemma ScheduleStartAsDocumented(v: View, at: Instant, extra: nat, key: Key)
    requires WellFormed(v)
    ensures RequireView(v, at, extra, key).starts[key] == at + extra <==> key !in v.state || extra == 0
  {
  }

  /**
   The extra lifetime is documented not to lower the active time.  At some later moment a queue would be active
   without the require and is not because of it: this is so exactly when the key has a queue whose schedule
   has not started yet.
   */
  lemma RequireShortensIff(delays: Delays, es: seq<Event>, at: Instant, extra: nat, k: Key)
    ensures var without, with := KeyStart(delays, es, k), KeyStart(delays, es + [Require(at, extra, k)], k);
            Shortens(delays, without, with, at) <==> without.Some? && at < without.value
  {
    var without, with := KeyStart(delays, es, k), KeyStart(delays, es + [Require(at, extra, k)], k);
    assert (es + [Require(at, extra, k)])[..|es|] == es;
    if without.Some? && at < without.value {
      assert Shortened(delays, without, with, at + delays.unbind);
    }
  }

  /** The queue would be active by the one schedule and is not by the other. */
  ghost predicate Shortened(delays: Delays, without: Option<Instant>, with: Option<Instant>, now: Instant) {
    Scheduled(delays, without, now) == Some(Active) && Scheduled(delays, with, now) != Some(Active)
  }

  ghost predicate Shortens(delays: Delays, without: Option<Instant>, with: Option<Instant>, from: Instant) {
    exists now: Instant :: from <= now && Shortened(delays, without, with, now)
  }

  /** The unbinding of a queue is brought forward by a require exactly when it comes before the schedule start. */
  lemma UnbindingIsBroughtForwardIff(delays: Delays, v: View, at: Instant, extra: nat, key: Key)
    requires WellFormed(v) && key in v.state
    ensures var before, after := v.starts[key], RequireView(v, at, extra, key).starts[key];
            EventTime(delays, after, Some(Unbound)) < EventTime(delays, before, Some(Unbound)) <==> at < before
  {
  }

  /** A run in which a second require moves the unbinding from 160 to 61. */
  lemma RepeatedRequireShortensSchedule(key: Key)
    ensures var delays := Delays(60, 60);
            var once := [Require(0, 100, key)];
            var twice := once + [Require(1, 100, key)];
            && Lookup(Run(delays, once + [Evolve(61)]).state, key) == Some(Active)
            && Lookup(Run(delays, twice + [Evolve(61)]).state, key) == Some(Unbound)
  {
    var delays := Delays(60, 60);
    var once := [Require(0, 100, key)];
    var twice := once + [Require(1, 100, key)];
    assert twice[..1] == once && once[..0] == [];
    assert KeyStart(delays, [], key) == None;
    assert KeyStart(delays, once, key) == Some(100);
    assert KeyStart(delays, twice, key) == Some(1);
    assert (once + [Evolve(61)])[..1] == once;
    assert (twice + [Evolve(61)])[..2] == twice;
    PublishedStateIsScheduled(delays, once, 61, key);
    PublishedStateIsScheduled(delays, twice, 61, key);
  }
}
