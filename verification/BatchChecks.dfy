/**
 Batched checks: the checks are sent in chunks under correlation ids, the server answers each chunk in any
 order, and the answers are put back in the order of the checks.
 */
module BatchChecks {
  import opened Options
  import opened Sequences

  datatype Check = Check(user: string, relation: string, object: string)
  datatype CorrelationId = CorrelationId(uuid: string)
  datatype Item = Item(id: CorrelationId, check: Check)
  datatype Entry = Entry(id: CorrelationId, allowed: bool)

  function Items(checks: seq<Check>, ids: seq<CorrelationId>): seq<Item>
    requires |checks| == |ids|
  {
    seq(|checks|, i requires 0 <= i < |checks| => Item(ids[i], checks[i]))
  }

  /** The server answers only items of the request, in any order, as its oracle decides. */
  ghost predicate Answers(oracle: Check -> bool, request: seq<Item>, response: seq<Entry>) {
    forall e :: e in response ==> Backed(oracle, request, e)
  }

  /** It leaves no item of the request out. */
  ghost predicate Complete(request: seq<Item>, response: seq<Entry>) {
    forall i :: i in request ==> HasEntry(response, i.id)
  }

  ghost predicate Matches(oracle: Check -> bool, i: Item, e: Entry) {
    i.id == e.id && oracle(i.check) == e.allowed
  }

  /** The entry answers one of the items. */
  ghost predicate Backed(oracle: Check -> bool, request: seq<Item>, e: Entry) {
    exists i :: i in request && Matches(oracle, i, e)
  }

  ghost predicate HasEntry(entries: seq<Entry>, id: CorrelationId) {
    exists e :: e in entries && e.id == id
  }

  /** The responses answer the chunks of the items, one by one. */
  ghost predicate AllAnswered(oracle: Check -> bool, items: seq<Item>, limit: nat, responses: seq<seq<Entry>>)
    requires 0 < limit
  {
    var cs := Chunks(items, limit);
    |responses| == |cs| && forall c :: 0 <= c < |cs| ==> Answers(oracle, cs[c], responses[c])
  }

  ghost predicate AllComplete(items: seq<Item>, limit: nat, responses: seq<seq<Entry>>)
    requires 0 < limit
  {
    var cs := Chunks(items, limit);
    |responses| == |cs| && forall c :: 0 <= c < |cs| ==> Complete(cs[c], responses[c])
  }

  /** Taken together, the responses answer the items as one request would have been. */
  lemma {:induction false} ChunkingIsTransparent(oracle: Check -> bool, items: seq<Item>, limit: nat, responses: seq<seq<Entry>>)
    requires 0 < limit && AllAnswered(oracle, items, limit, responses)
    ensures Answers(oracle, items, Flatten(responses))
    ensures AllComplete(items, limit, responses) ==> Complete(items, Flatten(responses))
    decreases |items|
  {
    if items != [] {
      var m := if |items| <= limit then |items| else limit;
      var rest := items[m..];
      var cs := Chunks(items, limit);
      assert items == items[..m] + rest;
      assert items[..m] == cs[0];
      assert cs[1..] == Chunks(rest, limit);
      forall c | 0 <= c < |cs| - 1
        ensures Answers(oracle, cs[1..][c], responses[1..][c])
        ensures Complete(cs[c + 1], responses[c + 1]) ==> Complete(cs[1..][c], responses[1..][c])
      {
        assert Answers(oracle, cs[c + 1], responses[c + 1]);
      }
      ChunkingIsTransparent(oracle, rest, limit, responses[1..]);
      AnswersConcat(oracle, items[..m], rest, responses[0], Flatten(responses[1..]));
      if AllComplete(items, limit, responses) {
        CompleteConcat(items[..m], rest, responses[0], Flatten(responses[1..]));
      }
    }
  }

  lemma AnswersConcat(oracle: Check -> bool, a: seq<Item>, b: seq<Item>, ra: seq<Entry>, rb: seq<Entry>)
    requires Answers(oracle, a, ra) && Answers(oracle, b, rb)
    ensures Answers(oracle, a + b, ra + rb)
  {
  }

  lemma CompleteConcat(a: seq<Item>, b: seq<Item>, ra: seq<Entry>, rb: seq<Entry>)
    requires Complete(a, ra) && Complete(b, rb)
    ensures Complete(a + b, ra + rb)
  {
  }

  /** The index of each correlation id. */
  method IndexIds(ids: seq<CorrelationId>) returns (index: map<CorrelationId, nat>)
    requires Distinct(ids)
    ensures index.Keys == set id | id in ids
    ensures forall i :: 0 <= i < |ids| ==> ids[i] in index && index[ids[i]] == i
  {
    index := map[];
    for n := 0 to |ids|
      invariant index.Keys == set id | id in ids[..n]
      invariant forall i :: 0 <= i < n ==> ids[i] in index && index[ids[i]] == i
    {
      index := index[ids[n] := n];
    }
    assert ids[..|ids|] == ids;
  }

  /**
   Runs the checks: `responses` is what the server answered, `None` if a request failed.  Every result is the
   answer to the check at its place, whatever the chunks and the order of the answers; a check the server
   left out is refused.
   */
  method Execute(checks: seq<Check>, ids: seq<CorrelationId>, limit: nat, responses: Option<seq<seq<Entry>>>,
                 ghost oracle: Check -> bool)
    returns (r: Option<seq<bool>>)
    requires |checks| == |ids| && Distinct(ids) && 0 < limit
    requires responses.Some? ==> AllAnswered(oracle, Items(checks, ids), limit, responses.value)
    ensures r.Some? <==> responses.Some?
    ensures r.Some? ==> |r.value| == |checks|
    ensures r.Some? ==> forall i :: 0 <= i < |checks| ==>
              r.value[i] == (HasEntry(Flatten(responses.value), ids[i]) && oracle(checks[i]))
    ensures r.Some? && AllComplete(Items(checks, ids), limit, responses.value) ==>
              forall i :: 0 <= i < |checks| ==> r.value[i] == oracle(checks[i])
  {
    if responses.None? {
      return None;
    }
    ghost var items := Items(checks, ids);
    ChunkingIsTransparent(oracle, items, limit, responses.value);
    var entries := Flatten(responses.value);
    var index := IndexIds(ids);
    var result := seq(|checks|, _ => false);
    var n := 0;
    while n < |entries|
      invariant 0 <= n <= |entries| && |result| == |checks|
      invariant FilledIn(oracle, items, entries[..n], result)
    {
      var e := entries[n];
      assert e in entries && Backed(oracle, items, e);
      ghost var k := BackedAt(oracle, items, e);
      assert ids[k] == e.id;
      FillIn(oracle, items, ids, entries[..n], result, e, k);
      result := result[index[e.id] := e.allowed];
      assert entries[..n + 1] == entries[..n] + [e];
      n := n + 1;
    }
    assert entries[..n] == entries;
    forall i | 0 <= i < |checks|
      ensures result[i] == (HasEntry(entries, ids[i]) && oracle(checks[i]))
      ensures AllComplete(items, limit, responses.value) ==> HasEntry(entries, ids[i])
    {
      assert items[i] in items && items[i].check == checks[i] && items[i].id == ids[i];
    }
    r := Some(result);
  }

  /** Every item has its answer in place, or a refusal as long as it has none. */
  ghost predicate FilledIn(oracle: Check -> bool, items: seq<Item>, entries: seq<Entry>, result: seq<bool>) {
    && |result| == |items|
    && forall i :: 0 <= i < |items| ==> result[i] == (HasEntry(entries, items[i].id) && oracle(items[i].check))
  }

  lemma BackedAt(oracle: Check -> bool, items: seq<Item>, e: Entry) returns (k: nat)
    requires Backed(oracle, items, e)
    ensures k < |items| && Matches(oracle, items[k], e)
  {
    var item :| item in items && Matches(oracle, item, e);
    k :| 0 <= k < |items| && items[k] == item;
  }

  lemma FillIn(oracle: Check -> bool, items: seq<Item>, ids: seq<CorrelationId>, entries: seq<Entry>, result: seq<bool>,
               e: Entry, k: nat)
    requires |items| == |ids| && Distinct(ids) && forall i :: 0 <= i < |items| ==> items[i].id == ids[i]
    requires FilledIn(oracle, items, entries, result) && k < |items| && Matches(oracle, items[k], e)
    ensures FilledIn(oracle, items, entries + [e], result[k := e.allowed])
  {
  }
}
