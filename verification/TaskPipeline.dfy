/**
 The batched task pipeline: requests are cut into chunks, each chunk is looked up in the cache, an aggregator
 computes what the cache did not have, and a writer fills the cache behind it.  The parts run concurrently;
 every sequence of actions is a run, and an action that is not possible does nothing.
 */
module TaskPipeline {
  import opened Options
  import opened Sequences

  datatype Task = Task(content: string)
  datatype Output = Output(content: string)
  datatype Failure = Failure(reason: string)
  datatype CacheKey = CacheKey(text: string)
  datatype Text = Text(json: string)
  datatype CorrelationKey = CorrelationKey(name: string)

  datatype Outcome = Computed(output: Output) | Failed(failure: Failure)
  datatype Request = Request(correlation: CorrelationKey, task: Task)
  datatype Answer = Answer(correlation: CorrelationKey, outcome: Outcome)

  /** What the pipeline is given: the cache key of a task, its computation, and the serialisation of outputs. */
  datatype Service = Service(
    key: Task -> CacheKey,
    compute: Task -> Outcome,
    write: Output -> Text,
    read: Text -> Option<Output>,
    batch: nat)

  /** Outputs survive serialisation, and tasks with the same cache key have the same outcome. */
  ghost predicate Lawful(e: Service) {
    && (forall v :: e.read(e.write(v)) == Some(v))
    && (forall t, t' :: e.key(t) == e.key(t') ==> e.compute(t) == e.compute(t'))
    && 0 < e.batch
  }

  /** A request on its way to the aggregator, with what the cache had for it. */
  datatype Lookup = Lookup(request: Request, key: CacheKey, cached: Option<Output>)

  datatype Write = Write(key: CacheKey, text: Text)

  /** `answered` records, answer by answer, the request each answer is for. */
  datatype Pipeline = Pipeline(
    pending: seq<Request>,
    chunks: seq<seq<Request>>,
    lookups: seq<Lookup>,
    computing: Option<Lookup>,
    writes: seq<Write>,
    cache: map<CacheKey, Text>,
    answers: seq<Answer>,
    answered: seq<Request>)

  datatype Action =
    | CutChunk(size: nat)
    | ReadChunk(index: nat, readable: bool)
    | Receive
    | FinishComputing
    | WriteEntry(writable: bool)
    | Evict(key: CacheKey)
    | WriteElsewhere(task: Task)

  function AnswerTo(e: Service, r: Request): Answer {
    Answer(r.correlation, e.compute(r.task))
  }

  /** A cache entry that cannot be read counts as missing. */
  function FromCache(e: Service, cache: map<CacheKey, Text>, k: CacheKey): Option<Output> {
    if k in cache then e.read(cache[k]) else None
  }

  function LookupOf(e: Service, cache: map<CacheKey, Text>, readable: bool, r: Request): Lookup {
    var k := e.key(r.task);
    Lookup(r, k, if readable then FromCache(e, cache, k) else None)
  }

  function LookupsOf(e: Service, cache: map<CacheKey, Text>, readable: bool, chunk: seq<Request>): seq<Lookup> {
    seq(|chunk|, i requires 0 <= i < |chunk| => LookupOf(e, cache, readable, chunk[i]))
  }

  /** The stream cuts full chunks, and a shorter one at its end. */
  function Cut(e: Service, s: Pipeline, size: nat): Pipeline {
    if 0 < size <= |s.pending| && (size == e.batch || (size < e.batch && size == |s.pending|))
    then s.(pending := s.pending[size..], chunks := s.chunks + [s.pending[..size]]) else s
  }

  /** One cache read for a whole chunk; when it fails, every request of the chunk counts as missed. */
  function Read(e: Service, s: Pipeline, i: nat, readable: bool): Pipeline {
    if i < |s.chunks|
    then s.(chunks := s.chunks[..i] + s.chunks[i + 1..],
            lookups := s.lookups + LookupsOf(e, s.cache, readable, s.chunks[i])) else s
  }

  function Respond(s: Pipeline, r: Request, outcome: Outcome): Pipeline {
    s.(answers := s.answers + [Answer(r.correlation, outcome)], answered := s.answered + [r])
  }

  function Take(s: Pipeline): Pipeline {
    if s.computing.Some? || s.lookups == [] then s else
      var next, rest := s.lookups[0], s.(lookups := s.lookups[1..]);
      if next.cached.Some? then Respond(rest, next.request, Computed(next.cached.value))
      else rest.(computing := Some(next))
  }

  function Finish(e: Service, s: Pipeline): Pipeline {
    if s.computing.None? then s else
      var item, rest := s.computing.value, s.(computing := None);
      var outcome := e.compute(item.request.task);
      if outcome.Computed?
      then Respond(rest.(writes := s.writes + [Write(item.key, e.write(outcome.output))]), item.request, outcome)
      else Respond(rest, item.request, outcome)
  }

  function Store(s: Pipeline, writable: bool): Pipeline {
    if s.writes == [] then s else
      var rest := s.(writes := s.writes[1..]);
      if writable then rest.(cache := s.cache[s.writes[0].key := s.writes[0].text]) else rest
  }

  /** Other users of the cache drop entries and write outputs of their own. */
  function Elsewhere(e: Service, s: Pipeline, t: Task): Pipeline {
    var outcome := e.compute(t);
    if outcome.Computed? then s.(cache := s.cache[e.key(t) := e.write(outcome.output)]) else s
  }

  function Step(e: Service, s: Pipeline, a: Action): Pipeline {
    match a
    case CutChunk(size) => Cut(e, s, size)
    case ReadChunk(i, readable) => Read(e, s, i, readable)
    case Receive => Take(s)
    case FinishComputing => Finish(e, s)
    case WriteEntry(writable) => Store(s, writable)
    case Evict(k) => s.(cache := s.cache - {k})
    case WriteElsewhere(t) => Elsewhere(e, s, t)
  }

  function Run(e: Service, s: Pipeline, actions: seq<Action>): Pipeline {
    if actions == [] then s else Step(e, Run(e, s, actions[..|actions| - 1]), actions[|actions| - 1])
  }

  function Started(inputs: seq<Request>, cache: map<CacheKey, Text>): Pipeline {
    Pipeline(inputs, [], [], None, [], cache, [], [])
  }

  // ---------------------------------------------------------------------------------------------
  // The tasks of the program
  // ---------------------------------------------------------------------------------------------

  /** The bulk read: one slot a key, in order; `None` when the read fails as a whole. */
  method BulkGet(e: Service, cache: map<CacheKey, Text>, keys: seq<CacheKey>, readable: bool)
    returns (r: Option<seq<Option<Output>>>)
    ensures r.Some? <==> readable
    ensures r.Some? ==> |r.value| == |keys|
    ensures r.Some? ==> forall i :: 0 <= i < |keys| ==> r.value[i] == FromCache(e, cache, keys[i])
  {
    if !readable {
      return None;
    }
    var values := [];
    for n := 0 to |keys|
      invariant |values| == n
      invariant forall i :: 0 <= i < n ==> values[i] == FromCache(e, cache, keys[i])
    {
      values := values + [FromCache(e, cache, keys[n])];
    }
    r := Some(values);
  }

  /** The channels, the cache and the input of one task stream, and the bodies of its concurrent tasks. */
  class TaskStream {
    const service: Service
    var pending: seq<Request>
    var chunks: seq<seq<Request>>
    var lookups: seq<Lookup>
    var computing: Option<Lookup>
    var writes: seq<Write>
    var cache: map<CacheKey, Text>
    var answers: seq<Answer>
    ghost var answered: seq<Request>

    ghost function Contents(): Pipeline
      reads this
    {
      Pipeline(pending, chunks, lookups, computing, writes, cache, answers, answered)
    }

    constructor (service: Service, inputs: seq<Request>, cache: map<CacheKey, Text>)
      ensures this.service == service && Contents() == Started(inputs, cache)
    {
      this.service, this.cache := service, cache;
      pending, chunks, lookups, computing := inputs, [], [], None;
      writes, answers, answered := [], [], [];
    }

    /** The input stream yields its next chunk. */
    method NextChunk()
      requires pending != [] && 0 < service.batch
      modifies this
      ensures var size := if old(|pending|) < service.batch then old(|pending|) else service.batch;
              Contents() == Step(service, old(Contents()), CutChunk(size))
    {
      var size := if |pending| < service.batch then |pending| else service.batch;
      chunks := chunks + [pending[..size]];
      pending := pending[size..];
    }

    /** A chunk-processing task: the keys of the chunk, one bulk read, one message to the aggregator a request. */
    method ProcessChunk(i: nat, readable: bool)
      requires i < |chunks|
      modifies this
      ensures Contents() == Step(service, old(Contents()), ReadChunk(i, readable))
    {
      var chunk := chunks[i];
      chunks := chunks[..i] + chunks[i + 1..];
      var keys := seq(|chunk|, j requires 0 <= j < |chunk| => service.key(chunk[j].task));
      var values := BulkGet(service, cache, keys, readable);
      ghost var sent := LookupsOf(service, cache, readable, chunk);
      for n := 0 to |chunk|
        invariant Contents() == old(Contents()).(chunks := old(chunks[..i] + chunks[i + 1..]),
                                                 lookups := old(lookups) + sent[..n])
      {
        var value := if values.Some? then values.value[n] else None;
        lookups := lookups + [Lookup(chunk[n], keys[n], value)];
        assert sent[..n + 1] == sent[..n] + [sent[n]];
      }
      assert sent[..|chunk|] == sent;
    }

    /** The aggregation task receives a request and answers it from the cache, or starts computing it. */
    method Aggregate()
      requires computing.None? && lookups != []
      modifies this
      ensures Contents() == Step(service, old(Contents()), Receive)
    {
      var next := lookups[0];
      lookups := lookups[1..];
      if next.cached.Some? {
        answers := answers + [Answer(next.request.correlation, Computed(next.cached.value))];
        answered := answered + [next.request];
      } else {
        computing := Some(next);
      }
    }

    /** The computation ends: a success goes to the writer and to the results, a failure only to the results. */
    method CompleteComputation()
      requires computing.Some?
      modifies this
      ensures Contents() == Step(service, old(Contents()), FinishComputing)
    {
      var item := computing.value;
      computing := None;
      var outcome := service.compute(item.request.task);
      if outcome.Computed? {
        writes := writes + [Write(item.key, service.write(outcome.output))];
      }
      answers := answers + [Answer(item.request.correlation, outcome)];
      answered := answered + [item.request];
    }

    /** The writing task stores the next entry; a failed write is only logged. */
    method WriteNext(writable: bool)
      requires writes != []
      modifies this
      ensures Contents() == Step(service, old(Contents()), WriteEntry(writable))
    {
      if writable {
        cache := cache[writes[0].key := writes[0].text];
      }
      writes := writes[1..];
    }

    /** One act of the stream, or of another user of the cache; nothing when it is not possible. */
    method Act(a: Action)
      requires 0 < service.batch
      modifies this
      ensures Contents() == Step(service, old(Contents()), a)
    {
      match a
      case CutChunk(size) =>
        if 0 < size <= |pending| && (size == service.batch || (size < service.batch && size == |pending|)) {
          NextChunk();
        }
      case ReadChunk(i, readable) =>
        if i < |chunks| {
          ProcessChunk(i, readable);
        }
      case Receive =>
        if computing.None? && lookups != [] {
          Aggregate();
        }
      case FinishComputing =>
        if computing.Some? {
          CompleteComputation();
        }
      case WriteEntry(writable) =>
        if writes != [] {
          WriteNext(writable);
        }
      case Evict(k) =>
        cache := cache - {k};
      case WriteElsewhere(t) =>
        var outcome := service.compute(t);
        if outcome.Computed? {
          cache := cache[service.key(t) := service.write(outcome.output)];
        }
    }

    /** An act that is possible, as long as something is unanswered or unwritten. */
    method Choose() returns (next: Option<Action>)
      ensures next == NextAction(service, Contents())
    {
      if writes != [] {
        return Some(WriteEntry(true));
      } else if computing.Some? {
        return Some(FinishComputing);
      } else if lookups != [] {
        return Some(Receive);
      } else if chunks != [] {
        return Some(ReadChunk(0, true));
      } else if pending != [] {
        return Some(CutChunk(if |pending| < service.batch then |pending| else service.batch));
      }
      return None;
    }
  }

  // ---------------------------------------------------------------------------------------------
  // The answers are those of the plain computation
  // ---------------------------------------------------------------------------------------------

  /** What an entry under a key says is what every task with that key computes. */
  ghost predicate Tells(e: Service, k: CacheKey, text: Text) {
    forall t :: e.key(t) == k && e.read(text).Some? ==> e.compute(t) == Computed(e.read(text).value)
  }

  ghost predicate Truthful(e: Service, cache: map<CacheKey, Text>) {
    forall k :: k in cache ==> Tells(e, k, cache[k])
  }

  ghost predicate LookupTrue(e: Service, l: Lookup) {
    && l.key == e.key(l.request.task)
    && (l.cached.Some? ==> e.compute(l.request.task) == Computed(l.cached.value))
  }

  ghost predicate AnswersTrue(e: Service, s: Pipeline) {
    && |s.answers| == |s.answered|
    && forall i :: 0 <= i < |s.answers| ==> s.answers[i] == AnswerTo(e, s.answered[i])
  }

  /** The cache, what is about to be written to it, what was read from it and the answers are all true. */
  ghost predicate Honest(e: Service, s: Pipeline) {
    && Truthful(e, s.cache)
    && (forall i :: 0 <= i < |s.writes| ==> Tells(e, s.writes[i].key, s.writes[i].text))
    && (forall i :: 0 <= i < |s.lookups| ==> LookupTrue(e, s.lookups[i]))
    && (s.computing.Some? ==> LookupTrue(e, s.computing.value))
    && AnswersTrue(e, s)
  }

  /** Writing the output of a task is telling the truth about its key. */
  lemma ComputedTells(e: Service, t: Task)
    requires Lawful(e) && e.compute(t).Computed?
    ensures Tells(e, e.key(t), e.write(e.compute(t).output))
  {
  }

  lemma ReadKeepsHonest(e: Service, s: Pipeline, i: nat, readable: bool)
    requires Honest(e, s)
    ensures Honest(e, Read(e, s, i, readable))
  {
  }

  lemma TakeKeepsHonest(e: Service, s: Pipeline)
    requires Honest(e, s)
    ensures Honest(e, Take(s))
  {
  }

  lemma FinishKeepsHonest(e: Service, s: Pipeline)
    requires Lawful(e) && Honest(e, s)
    ensures Honest(e, Finish(e, s))
  {
  }

  lemma StepKeepsHonest(e: Service, s: Pipeline, a: Action)
    requires Lawful(e) && Honest(e, s)
    ensures Honest(e, Step(e, s, a))
  {
    match a
    case ReadChunk(i, readable) => ReadKeepsHonest(e, s, i, readable);
    case Receive => TakeKeepsHonest(e, s);
    case FinishComputing => FinishKeepsHonest(e, s);
    case WriteElsewhere(t) =>
      if e.compute(t).Computed? {
        ComputedTells(e, t);
      }
    case CutChunk(_) =>
    case WriteEntry(_) =>
    case Evict(_) =>
  }

  lemma {:induction false} RunIsHonest(e: Service, inputs: seq<Request>, cache: map<CacheKey, Text>, actions: seq<Action>)
    requires Lawful(e) && Truthful(e, cache)
    ensures Honest(e, Run(e, Started(inputs, cache), actions))
  {
    if actions != [] {
      RunIsHonest(e, inputs, cache, actions[..|actions| - 1]);
      StepKeepsHonest(e, Run(e, Started(inputs, cache), actions[..|actions| - 1]), actions[|actions| - 1]);
    }
  }

  /** A task that fails never has a readable entry in the cache. */
  lemma FailuresAreNotCached(e: Service, inputs: seq<Request>, cache: map<CacheKey, Text>, actions: seq<Action>, t: Task)
    requires Lawful(e) && Truthful(e, cache) && e.compute(t).Failed?
    ensures FromCache(e, Run(e, Started(inputs, cache), actions).cache, e.key(t)) == None
  {
    RunIsHonest(e, inputs, cache, actions);
    var end := Run(e, Started(inputs, cache), actions).cache;
    assert e.key(t) in end ==> Tells(e, e.key(t), end[e.key(t)]);
  }

  // ---------------------------------------------------------------------------------------------
  // No request is lost or answered twice
  // ---------------------------------------------------------------------------------------------

  function RequestsOf(ls: seq<Lookup>): seq<Request> {
    if ls == [] then [] else [ls[0].request] + RequestsOf(ls[1..])
  }

  /** How often a request is somewhere in the pipeline, answers included. */
  ghost function Present(s: Pipeline, r: Request): nat {
    multiset(s.pending)[r] + multiset(Flatten(s.chunks))[r] + multiset(RequestsOf(s.lookups))[r]
    + (if s.computing.Some? && s.computing.value.request == r then 1 else 0)
    + multiset(s.answered)[r]
  }

  lemma {:induction false} RequestsOfConcat(a: seq<Lookup>, b: seq<Lookup>)
    ensures RequestsOf(a + b) == RequestsOf(a) + RequestsOf(b)
  {
    if a == [] {
      assert a + b == b;
    } else {
      assert (a + b)[1..] == a[1..] + b;
      RequestsOfConcat(a[1..], b);
    }
  }

  lemma {:induction false} LookupsCarryRequests(e: Service, cache: map<CacheKey, Text>, readable: bool, chunk: seq<Request>)
    ensures RequestsOf(LookupsOf(e, cache, readable, chunk)) == chunk
  {
    if chunk != [] {
      var ls := LookupsOf(e, cache, readable, chunk);
      assert ls[1..] == LookupsOf(e, cache, readable, chunk[1..]);
      LookupsCarryRequests(e, cache, readable, chunk[1..]);
      assert chunk == [chunk[0]] + chunk[1..];
    }
  }

  lemma CutKeepsPresent(e: Service, s: Pipeline, size: nat, r: Request)
    ensures Present(Cut(e, s, size), r) == Present(s, r)
  {
    if size <= |s.pending| {
      FlattenSnoc(s.chunks, s.pending[..size]);
      assert s.pending == s.pending[..size] + s.pending[size..];
    }
  }

  /** Taking a chunk out takes its requests out. */
  lemma FlattenWithout(chunks: seq<seq<Request>>, i: nat)
    requires i < |chunks|
    ensures var rest := Flatten(chunks[..i] + chunks[i + 1..]);
            && multiset(Flatten(chunks)) == multiset(rest) + multiset(chunks[i])
            && |Flatten(chunks)| == |rest| + |chunks[i]|
  {
    var before, chunk, after := chunks[..i], chunks[i], chunks[i + 1..];
    assert chunks == before + ([chunk] + after);
    FlattenConcat(before, [chunk] + after);
    FlattenConcat(before, after);
    assert ([chunk] + after)[1..] == after;
  }

  lemma ReadKeepsPresent(e: Service, s: Pipeline, i: nat, readable: bool, r: Request)
    ensures Present(Read(e, s, i, readable), r) == Present(s, r)
  {
    if i < |s.chunks| {
      FlattenWithout(s.chunks, i);
      var chunk := s.chunks[i];
      LookupsCarryRequests(e, s.cache, readable, chunk);
      RequestsOfConcat(s.lookups, LookupsOf(e, s.cache, readable, chunk));
    }
  }

  lemma StepKeepsPresent(e: Service, s: Pipeline, a: Action, r: Request)
    ensures Present(Step(e, s, a), r) == Present(s, r)
  {
    match a
    case CutChunk(size) => CutKeepsPresent(e, s, size, r);
    case ReadChunk(i, readable) => ReadKeepsPresent(e, s, i, readable, r);
    case Receive => TakeKeepsPresent(s, r);
    case FinishComputing => FinishKeepsPresent(e, s, r);
    case WriteEntry(_) =>
    case Evict(_) =>
    case WriteElsewhere(_) =>
  }

  lemma TakeKeepsPresent(s: Pipeline, r: Request)
    ensures Present(Take(s), r) == Present(s, r)
  {
  }

  lemma FinishKeepsPresent(e: Service, s: Pipeline, r: Request)
    ensures Present(Finish(e, s), r) == Present(s, r)
  {
    if s.computing.Some? {
      var request := s.computing.value.request;
      assert Finish(e, s).answered == s.answered + [request];
      assert multiset(s.answered + [request])[r] == multiset(s.answered)[r] + if request == r then 1 else 0;
    }
  }

  lemma {:induction false} RequestsAreConserved(e: Service, inputs: seq<Request>, cache: map<CacheKey, Text>,
                                                actions: seq<Action>, r: Request)
    ensures Present(Run(e, Started(inputs, cache), actions), r) == multiset(inputs)[r]
  {
    if actions != [] {
      RequestsAreConserved(e, inputs, cache, actions[..|actions| - 1], r);
      StepKeepsPresent(e, Run(e, Started(inputs, cache), actions[..|actions| - 1]), actions[|actions| - 1], r);
    }
  }

  // ---------------------------------------------------------------------------------------------
  // Agreement with the plain computation
  // ---------------------------------------------------------------------------------------------

  /** Nothing is left to do but writing to the cache. */
  predicate Answered(s: Pipeline) {
    s.pending == [] && s.chunks == [] && s.lookups == [] && s.computing.None?
  }

  /** What the uncached form would answer, in the order of the inputs. */
  function PlainAnswers(e: Service, inputs: seq<Request>): seq<Answer> {
    if inputs == [] then [] else [AnswerTo(e, inputs[0])] + PlainAnswers(e, inputs[1..])
  }

  lemma {:induction false} PlainAnswersOfConcat(e: Service, a: seq<Request>, b: seq<Request>)
    ensures PlainAnswers(e, a + b) == PlainAnswers(e, a) + PlainAnswers(e, b)
  {
    if a == [] {
      assert a + b == b;
    } else {
      assert (a + b)[1..] == a[1..] + b;
      PlainAnswersOfConcat(e, a[1..], b);
    }
  }

  function Without<T>(s: seq<T>, i: nat): seq<T>
    requires i < |s|
  {
    s[..i] + s[i + 1..]
  }

  lemma RemoveOne<T>(s: seq<T>, i: nat)
    requires i < |s|
    ensures multiset(Without(s, i)) == multiset(s) - multiset{s[i]}
  {
    assert s == s[..i] + ([s[i]] + s[i + 1..]);
  }

  lemma AnswersWithout(e: Service, b: seq<Request>, i: nat)
    requires i < |b|
    ensures multiset(PlainAnswers(e, b)) == multiset(PlainAnswers(e, Without(b, i))) + multiset{AnswerTo(e, b[i])}
  {
    assert b == b[..i] + ([b[i]] + b[i + 1..]);
    PlainAnswersOfConcat(e, b[..i], [b[i]] + b[i + 1..]);
    PlainAnswersOfConcat(e, b[..i], b[i + 1..]);
    assert ([b[i]] + b[i + 1..])[1..] == b[i + 1..];
  }

  lemma SameButOne(e: Service, a: seq<Request>, b: seq<Request>, i: nat)
    requires a != [] && i < |b| && b[i] == a[0]
    requires multiset(PlainAnswers(e, Without(a, 0))) == multiset(PlainAnswers(e, Without(b, i)))
    ensures multiset(PlainAnswers(e, a)) == multiset(PlainAnswers(e, b))
  {
    AnswersWithout(e, a, 0);
    AnswersWithout(e, b, i);
  }

  lemma IndexIn(b: seq<Request>, r: Request) returns (i: nat)
    requires r in multiset(b)
    ensures i < |b| && b[i] == r
  {
    assert r in b;
    i :| 0 <= i < |b| && b[i] == r;
  }

  /** Reordering the inputs reorders the answers. */
  lemma {:induction false} SameRequestsSameAnswers(e: Service, a: seq<Request>, b: seq<Request>)
    requires multiset(a) == multiset(b)
    ensures multiset(PlainAnswers(e, a)) == multiset(PlainAnswers(e, b))
    decreases |a|
  {
    if a == [] {
      assert |b| == |multiset(b)| == |multiset(a)| == 0;
    } else {
      assert a[0] in multiset(a);
      var i := IndexIn(b, a[0]);
      RemoveOne(a, 0);
      RemoveOne(b, i);
      SameRequestsSameAnswers(e, Without(a, 0), Without(b, i));
      SameButOne(e, a, b, i);
    }
  }

  lemma {:induction false} TrueAnswersArePlain(e: Service, answers: seq<Answer>, answered: seq<Request>)
    requires |answers| == |answered|
    requires forall i :: 0 <= i < |answers| ==> answers[i] == AnswerTo(e, answered[i])
    ensures answers == PlainAnswers(e, answered)
  {
    if answers != [] {
      TrueAnswersArePlain(e, answers[1..], answered[1..]);
      assert answers == [answers[0]] + answers[1..];
    }
  }

  /**
   Whatever the chunks, the interleaving, the failed cache reads and writes and what others do to the cache,
   once everything is answered the answers are those of the plain computation, one for each input.
   */
  lemma PipelineAgreesWithPlainComputation(e: Service, inputs: seq<Request>, cache: map<CacheKey, Text>, actions: seq<Action>)
    requires Lawful(e) && Truthful(e, cache)
    requires Answered(Run(e, Started(inputs, cache), actions))
    ensures multiset(Run(e, Started(inputs, cache), actions).answers) == multiset(PlainAnswers(e, inputs))
  {
    var s := Run(e, Started(inputs, cache), actions);
    RunIsHonest(e, inputs, cache, actions);
    forall r
      ensures multiset(s.answered)[r] == multiset(inputs)[r]
    {
      RequestsAreConserved(e, inputs, cache, actions, r);
      assert Present(s, r) == multiset(s.answered)[r];
    }
    assert multiset(s.answered) == multiset(inputs);
    TrueAnswersArePlain(e, s.answers, s.answered);
    SameRequestsSameAnswers(e, s.answered, inputs);
  }

  // ---------------------------------------------------------------------------------------------
  // The cache is filled and used
  // ---------------------------------------------------------------------------------------------

  /** The action neither drops an entry nor fails to write one. */
  predicate Lossless(a: Action) {
    !a.Evict? && (a.WriteEntry? ==> a.writable)
  }

  /** The key has a readable entry, or one is on its way to the writer. */
  ghost predicate Filed(e: Service, s: Pipeline, k: CacheKey) {
    FromCache(e, s.cache, k).Some? || exists w :: w in s.writes && w.key == k
  }

  /** Whatever was read from the cache is still there, and what was computed is there or on its way. */
  ghost predicate Saved(e: Service, s: Pipeline) {
    && (forall w :: w in s.writes ==> e.read(w.text).Some?)
    && (forall l :: l in s.lookups && l.cached.Some? ==> Filed(e, s, e.key(l.request.task)))
    && (forall r :: r in s.answered && e.compute(r.task).Computed? ==> Filed(e, s, e.key(r.task)))
  }

  lemma FiledStays(e: Service, s: Pipeline, a: Action, k: CacheKey)
    requires Lawful(e) && Saved(e, s) && Lossless(a) && Filed(e, s, k)
    ensures Filed(e, Step(e, s, a), k)
  {
    if a.WriteEntry? && s.writes != [] {
      assert s.writes == [s.writes[0]] + s.writes[1..];
      assert s.writes[0] in s.writes;
    } else if a.FinishComputing? {
      assert forall w :: w in s.writes ==> w in Finish(e, s).writes;
    }
  }

  /** A lookup on its way after the step was on its way before, or was just read. */
  lemma LookupsComeFrom(e: Service, s: Pipeline, a: Action, l: Lookup)
    requires Lawful(e) && Saved(e, s) && l in Step(e, s, a).lookups && l.cached.Some?
    ensures Filed(e, s, e.key(l.request.task))
  {
    if a.ReadChunk? && a.index < |s.chunks| && l !in s.lookups {
      assert l in LookupsOf(e, s.cache, a.readable, s.chunks[a.index]);
    }
  }

  lemma FinishSaves(e: Service, s: Pipeline)
    requires Lawful(e) && Honest(e, s) && Saved(e, s) && s.computing.Some?
    ensures var r := s.computing.value.request;
            && (e.compute(r.task).Computed? ==> Filed(e, Finish(e, s), e.key(r.task)))
            && (forall w :: w in Finish(e, s).writes ==> e.read(w.text).Some?)
  {
    var item := s.computing.value;
    var outcome := e.compute(item.request.task);
    if outcome.Computed? {
      assert Write(item.key, e.write(outcome.output)) in Finish(e, s).writes;
    }
  }

  lemma StepKeepsSaved(e: Service, s: Pipeline, a: Action)
    requires Lawful(e) && Honest(e, s) && Saved(e, s) && Lossless(a)
    ensures Saved(e, Step(e, s, a))
  {
    var s' := Step(e, s, a);
    forall l | l in s'.lookups && l.cached.Some?
      ensures Filed(e, s', e.key(l.request.task))
    {
      LookupsComeFrom(e, s, a, l);
      FiledStays(e, s, a, e.key(l.request.task));
    }
    if a.FinishComputing? && s.computing.Some? {
      FinishSaves(e, s);
    }
    forall r | r in s'.answered && e.compute(r.task).Computed?
      ensures Filed(e, s', e.key(r.task))
    {
      if r in s.answered {
        FiledStays(e, s, a, e.key(r.task));
      } else if a.Receive? {
        assert s.lookups[0] in s.lookups && r == s.lookups[0].request;
        FiledStays(e, s, a, e.key(r.task));
      } else {
        assert a.FinishComputing? && r == s.computing.value.request;
      }
    }
  }

  ghost predicate AllLossless(actions: seq<Action>) {
    actions == [] || (AllLossless(actions[..|actions| - 1]) && Lossless(actions[|actions| - 1]))
  }

  lemma {:induction false} RunIsSaved(e: Service, inputs: seq<Request>, cache: map<CacheKey, Text>, actions: seq<Action>)
    requires Lawful(e) && Truthful(e, cache) && AllLossless(actions)
    ensures Saved(e, Run(e, Started(inputs, cache), actions))
  {
    if actions != [] {
      RunIsSaved(e, inputs, cache, actions[..|actions| - 1]);
      RunIsHonest(e, inputs, cache, actions[..|actions| - 1]);
      StepKeepsSaved(e, Run(e, Started(inputs, cache), actions[..|actions| - 1]), actions[|actions| - 1]);
    }
  }

  /**
   Over every run that loses no entry, once everything is answered and written the cache has, for every input that
   computes, exactly its output.
   */
  lemma CacheIsFilled(e: Service, inputs: seq<Request>, cache: map<CacheKey, Text>, actions: seq<Action>, r: Request)
    requires Lawful(e) && Truthful(e, cache) && AllLossless(actions)
    requires Answered(Run(e, Started(inputs, cache), actions)) && Run(e, Started(inputs, cache), actions).writes == []
    requires r in inputs && e.compute(r.task).Computed?
    ensures FromCache(e, Run(e, Started(inputs, cache), actions).cache, e.key(r.task)) == Some(e.compute(r.task).output)
  {
    var s := Run(e, Started(inputs, cache), actions);
    RunIsSaved(e, inputs, cache, actions);
    RunIsHonest(e, inputs, cache, actions);
    RequestsAreConserved(e, inputs, cache, actions, r);
    assert multiset(inputs)[r] > 0 && multiset(s.answered)[r] > 0;
    assert r in s.answered && Filed(e, s, e.key(r.task));
    assert Tells(e, e.key(r.task), s.cache[e.key(r.task)]);
  }

  /** Only misses are computed. */
  ghost predicate ComputesMisses(s: Pipeline) {
    s.computing.Some? ==> s.computing.value.cached.None?
  }

  lemma {:induction false} RunComputesMisses(e: Service, s: Pipeline, actions: seq<Action>)
    requires ComputesMisses(s)
    ensures ComputesMisses(Run(e, s, actions))
  {
    if actions != [] {
      RunComputesMisses(e, s, actions[..|actions| - 1]);
    }
  }

  /** The lookup waits for the aggregator, or its request has been answered with what the cache had. */
  ghost predicate WaitsOrAnswered(s: Pipeline, l: Lookup)
    requires l.cached.Some?
  {
    l in s.lookups || Answer(l.request.correlation, Computed(l.cached.value)) in s.answers
  }

  lemma HitStep(e: Service, s: Pipeline, a: Action, l: Lookup)
    requires l.cached.Some? && WaitsOrAnswered(s, l)
    ensures WaitsOrAnswered(Step(e, s, a), l)
  {
    if a.Receive? && s.computing.None? && s.lookups != [] {
      assert s.lookups == [s.lookups[0]] + s.lookups[1..];
    }
  }

  lemma {:induction false} HitStays(e: Service, s: Pipeline, actions: seq<Action>, l: Lookup)
    requires l.cached.Some? && WaitsOrAnswered(s, l)
    ensures WaitsOrAnswered(Run(e, s, actions), l)
  {
    if actions != [] {
      HitStays(e, s, actions[..|actions| - 1], l);
      HitStep(e, Run(e, s, actions[..|actions| - 1]), actions[|actions| - 1], l);
    }
  }

  /**
   A request whose entry is readable when its chunk is read is answered with that entry and never computed: from
   then on, over every run, its lookup waits for the aggregator or is answered, and is never the one being computed.
   */
  lemma HitIsAnsweredFromCache(e: Service, inputs: seq<Request>, cache: map<CacheKey, Text>, before: seq<Action>,
                               i: nat, j: nat, after: seq<Action>)
    requires var s := Run(e, Started(inputs, cache), before);
             i < |s.chunks| && j < |s.chunks[i]| && FromCache(e, s.cache, e.key(s.chunks[i][j].task)).Some?
    ensures var s := Run(e, Started(inputs, cache), before);
            var r := s.chunks[i][j];
            var l := Lookup(r, e.key(r.task), FromCache(e, s.cache, e.key(r.task)));
            var end := Run(e, Step(e, s, ReadChunk(i, true)), after);
            WaitsOrAnswered(end, l) && end.computing != Some(l)
  {
    var s := Run(e, Started(inputs, cache), before);
    var r, s' := s.chunks[i][j], Step(e, s, ReadChunk(i, true));
    var l := Lookup(r, e.key(r.task), FromCache(e, s.cache, e.key(r.task)));
    RunComputesMisses(e, Started(inputs, cache), before);
    RunComputesMisses(e, s', after);
    assert s'.lookups[|s.lookups| + j] == l;
    HitStays(e, s', after, l);
  }

  /** Over every run, a cache read is for at least one request and at most a batch. */
  lemma {:induction false} ChunksFit(e: Service, inputs: seq<Request>, cache: map<CacheKey, Text>, actions: seq<Action>)
    ensures forall c :: c in Run(e, Started(inputs, cache), actions).chunks ==> 0 < |c| <= e.batch
  {
    if actions != [] {
      ChunksFit(e, inputs, cache, actions[..|actions| - 1]);
    }
  }

  // ---------------------------------------------------------------------------------------------
  // Progress
  // ---------------------------------------------------------------------------------------------

  predicate NonEmptyChunks(s: Pipeline) {
    forall i :: 0 <= i < |s.chunks| ==> |s.chunks[i]| > 0
  }

  /** Steps left at most before everything is answered and written. */
  function Work(s: Pipeline): nat {
    5 * |s.pending| + 4 * |Flatten(s.chunks)| + 3 * |s.lookups| + (if s.computing.Some? then 2 else 0) + |s.writes|
  }

  /** An action of the pipeline itself that is possible in this state; `None` when all is done. */
  function NextAction(e: Service, s: Pipeline): Option<Action> {
    if s.writes != [] then Some(WriteEntry(true))
    else if s.computing.Some? then Some(FinishComputing)
    else if s.lookups != [] then Some(Receive)
    else if s.chunks != [] then Some(ReadChunk(0, true))
    else if s.pending != [] then Some(CutChunk(if |s.pending| < e.batch then |s.pending| else e.batch))
    else None
  }

  lemma ReadWorks(e: Service, s: Pipeline, i: nat, readable: bool)
    requires NonEmptyChunks(s) && i < |s.chunks|
    ensures Work(Read(e, s, i, readable)) < Work(s)
  {
    FlattenWithout(s.chunks, i);
  }

  lemma CutWorks(e: Service, s: Pipeline, size: nat)
    requires Cut(e, s, size) != s
    ensures Work(Cut(e, s, size)) < Work(s)
  {
    FlattenSnoc(s.chunks, s.pending[..size]);
  }

  lemma ChunksStayNonEmpty(e: Service, s: Pipeline, a: Action)
    requires NonEmptyChunks(s)
    ensures NonEmptyChunks(Step(e, s, a))
  {
  }

  /** Every act of the pipeline's own is progress, whatever others do to the cache in between. */
  lemma EveryActIsProgress(e: Service, s: Pipeline, a: Action)
    requires NonEmptyChunks(s) && !a.Evict? && !a.WriteElsewhere? && Step(e, s, a) != s
    ensures Work(Step(e, s, a)) < Work(s)
  {
    match a
    case CutChunk(size) => CutWorks(e, s, size);
    case ReadChunk(i, readable) => ReadWorks(e, s, i, readable);
    case Receive =>
    case FinishComputing =>
    case WriteEntry(_) =>
  }

  /** There is no deadlock: a pipeline that cannot act has answered everything. */
  lemma NeverStuck(e: Service, s: Pipeline)
    requires Lawful(e)
    ensures NextAction(e, s).Some? ==> Step(e, s, NextAction(e, s).value) != s
    ensures NextAction(e, s).None? ==> Answered(s) && s.writes == []
  {
  }

  lemma {:induction false} RunAfter(e: Service, s: Pipeline, a: Action, rest: seq<Action>)
    ensures Run(e, s, [a] + rest) == Run(e, Step(e, s, a), rest)
  {
    if rest == [] {
      assert ([a] + rest)[..0] == [] && [a] + rest == [a];
    } else {
      assert ([a] + rest)[..|rest|] == [a] + rest[..|rest| - 1];
      RunAfter(e, s, a, rest[..|rest| - 1]);
    }
  }

  /** So every run can be completed, in at most as many steps as there is work left. */
  lemma {:induction false} EveryRunCanFinish(e: Service, s: Pipeline) returns (actions: seq<Action>)
    requires Lawful(e) && NonEmptyChunks(s)
    ensures |actions| <= Work(s)
    ensures Answered(Run(e, s, actions)) && Run(e, s, actions).writes == []
    decreases Work(s)
  {
    NeverStuck(e, s);
    var next := NextAction(e, s);
    if next.None? {
      actions := [];
    } else {
      EveryActIsProgress(e, s, next.value);
      ChunksStayNonEmpty(e, s, next.value);
      var rest := EveryRunCanFinish(e, Step(e, s, next.value));
      RunAfter(e, s, next.value, rest);
      actions := [next.value] + rest;
    }
  }

  /**
   The stream driven by any schedule of its own acts and of others' on the cache, with any pattern of failed
   reads and writes, then let run to its end: its answers are those of the plain computation.
   */
  method RunStream(e: Service, inputs: seq<Request>, cache: map<CacheKey, Text>, schedule: seq<Action>)
    returns (answers: seq<Answer>)
    requires Lawful(e) && Truthful(e, cache)
    ensures multiset(answers) == multiset(PlainAnswers(e, inputs))
  {
    var stream := new TaskStream(e, inputs, cache);
    ghost var done: seq<Action> := [];
    for n := 0 to |schedule|
      invariant fresh(stream) && stream.service == e && NonEmptyChunks(stream.Contents())
      invariant stream.Contents() == Run(e, Started(inputs, cache), done)
    {
      done := Acted(e, stream.Contents(), inputs, cache, done, schedule[n]);
      stream.Act(schedule[n]);
    }
    var next := stream.Choose();
    while next.Some?
      invariant fresh(stream) && stream.service == e && NonEmptyChunks(stream.Contents())
      invariant stream.Contents() == Run(e, Started(inputs, cache), done)
      invariant next == NextAction(e, stream.Contents())
      decreases Work(stream.Contents())
    {
      NeverStuck(e, stream.Contents());
      EveryActIsProgress(e, stream.Contents(), next.value);
      done := Acted(e, stream.Contents(), inputs, cache, done, next.value);
      stream.Act(next.value);
      next := stream.Choose();
    }
    NeverStuck(e, stream.Contents());
    PipelineAgreesWithPlainComputation(e, inputs, cache, done);
    answers := stream.answers;
  }

  lemma Acted(e: Service, s: Pipeline, inputs: seq<Request>, cache: map<CacheKey, Text>, done: seq<Action>, a: Action)
    returns (done': seq<Action>)
    requires s == Run(e, Started(inputs, cache), done) && NonEmptyChunks(s)
    ensures Run(e, Started(inputs, cache), done') == Step(e, s, a) && NonEmptyChunks(Step(e, s, a))
  {
    done' := done + [a];
    assert done'[..|done|] == done;
    ChunksStayNonEmpty(e, s, a);
  }

  // ---------------------------------------------------------------------------------------------
  // A single task
  // ---------------------------------------------------------------------------------------------

  /** The unbatched form: the outcome, and the cache write it leaves to be done, if any. */
  function RunSingle(e: Service, cache: map<CacheKey, Text>, readable: bool, t: Task): (r: (Outcome, Option<Write>)) {
    var k := e.key(t);
    var cached := if readable then FromCache(e, cache, k) else None;
    if cached.Some? then (Computed(cached.value), None) else
      var outcome := e.compute(t);
      (outcome, if outcome.Computed? then Some(Write(k, e.write(outcome.output))) else None)
  }

  /** It agrees with the computation and keeps the cache truthful, whether or not the write takes place. */
  lemma SingleAgreesWithPlainComputation(e: Service, cache: map<CacheKey, Text>, readable: bool, t: Task)
    requires Lawful(e) && Truthful(e, cache)
    ensures RunSingle(e, cache, readable, t).0 == e.compute(t)
    ensures var w := RunSingle(e, cache, readable, t).1;
            w.Some? ==> Truthful(e, cache[w.value.key := w.value.text])
  {
  }

  /** It leaves a write exactly when it had to compute and succeeded; done, the entry is the output. */
  lemma SingleFillsCache(e: Service, cache: map<CacheKey, Text>, readable: bool, t: Task)
    requires Lawful(e)
    ensures var w := RunSingle(e, cache, readable, t).1;
            && (w.Some? <==> !(readable && FromCache(e, cache, e.key(t)).Some?) && e.compute(t).Computed?)
            && (w.Some? ==> FromCache(e, cache[w.value.key := w.value.text], e.key(t)) == Some(e.compute(t).output))
  {
  }
}
