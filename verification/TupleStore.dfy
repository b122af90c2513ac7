/**
 The relation store as its client sees it: a set of tuples, changed by requests that are each all or nothing,
 in chunks of at most the configured number of tuples, with nothing transactional across chunks.
 */
module TupleStore {
  import opened Sequences

  datatype User = User(id: int)
  datatype Group = Group(id: int)
  datatype Infra = Infra(id: int)
  datatype Subject = UserSubject(user: User) | GroupSubject(group: Group)
  datatype Grant = Reader | Writer | Owner

  /** A group has a member; a user has a group; an infrastructure has a direct grant to a user or a group's members. */
  datatype Tuple =
    | MemberOf(group: Group, user: User)
    | GroupOf(user: User, group: Group)
    | Granted(infra: Infra, grant: Grant, subject: Subject)

  function Elements<T(==)>(s: seq<T>): set<T> {
    set x | x in s
  }

  /** Which chunk requests the network carries to the server; the others fail. */
  type Fate = nat -> bool

  /** A request writes its tuples or deletes them. */
  datatype Kind = Write | Delete

  /** The server rejects a request that repeats a tuple, writes an existing one or deletes a missing one. */
  ghost predicate Accepts(kind: Kind, tuples: set<Tuple>, ts: seq<Tuple>) {
    && Distinct(ts)
    && (kind == Write ==> Elements(ts) !! tuples)
    && (kind == Delete ==> Elements(ts) <= tuples)
  }

  function Applied(kind: Kind, tuples: set<Tuple>, ts: set<Tuple>): set<Tuple> {
    if kind == Write then tuples + ts else tuples - ts
  }

  /** What one request leaves in the store: it is all or nothing. */
  ghost function Posted(kind: Kind, tuples: set<Tuple>, chunk: seq<Tuple>, carriedOut: bool): set<Tuple> {
    if carriedOut && Accepts(kind, tuples, chunk) then Applied(kind, tuples, Elements(chunk)) else tuples
  }

  /** What the chunks leave in the store, the first one having number `from`. */
  ghost function Executed(kind: Kind, tuples: set<Tuple>, cs: seq<seq<Tuple>>, fate: Fate, from: nat): set<Tuple>
    decreases |cs|
  {
    if cs == [] then tuples
    else Executed(kind, Posted(kind, tuples, cs[0], fate(from)), cs[1..], fate, from + 1)
  }

  /** Every chunk is carried out and accepted. */
  ghost predicate Succeeds(kind: Kind, tuples: set<Tuple>, cs: seq<seq<Tuple>>, fate: Fate, from: nat)
    decreases |cs|
  {
    cs == [] ||
    (fate(from) && Accepts(kind, tuples, cs[0])
     && Succeeds(kind, Applied(kind, tuples, Elements(cs[0])), cs[1..], fate, from + 1))
  }

  /** The tuples of the chunks that are carried out. */
  ghost function Landed(cs: seq<seq<Tuple>>, fate: Fate, from: nat): set<Tuple> {
    if cs == [] then {} else (if fate(from) then Elements(cs[0]) else {}) + Landed(cs[1..], fate, from + 1)
  }

  ghost predicate AllLand(cs: seq<seq<Tuple>>, fate: Fate, from: nat) {
    cs == [] || (fate(from) && AllLand(cs[1..], fate, from + 1))
  }

  /** Tuples that are acceptable together are acceptable one chunk after the other. */
  lemma AcceptsOff(kind: Kind, tuples: set<Tuple>, ts: seq<Tuple>, m: nat)
    requires m <= |ts|
    ensures var head, rest := ts[..m], ts[m..];
            Accepts(kind, tuples, ts)
            <==> Accepts(kind, tuples, head) && Accepts(kind, Applied(kind, tuples, Elements(head)), rest)
    ensures Accepts(kind, tuples, ts) ==> Accepts(kind, tuples, ts[m..])
  {
    var head, rest := ts[..m], ts[m..];
    assert ts == head + rest;
    if Distinct(head) && Distinct(rest) && Elements(head) !! Elements(rest) {
      forall i, j | 0 <= i < j < |ts|
        ensures ts[i] != ts[j]
      {
        assert i < m ==> head[i] in Elements(head);
        assert j >= m ==> rest[j - m] in Elements(rest);
      }
    }
  }

  /** When the server has no reason to reject, exactly the chunks that are carried out take effect. */
  lemma {:induction false} ExecutedIsLanded(kind: Kind, tuples: set<Tuple>, ts: seq<Tuple>, limit: nat, fate: Fate, from: nat)
    requires 0 < limit && Accepts(kind, tuples, ts)
    ensures Executed(kind, tuples, Chunks(ts, limit), fate, from)
         == Applied(kind, tuples, Landed(Chunks(ts, limit), fate, from))
    decreases |ts|
  {
    if ts != [] {
      var m := if |ts| <= limit then |ts| else limit;
      ChunkOff(ts, limit, m);
      AcceptsOff(kind, tuples, ts, m);
      ExecutedIsLanded(kind, Posted(kind, tuples, ts[..m], fate(from)), ts[m..], limit, fate, from + 1);
    }
  }

  /**
   All chunks succeed exactly when all are carried out and the server had no reason to reject the tuples as a
   whole; then every tuple takes effect.
   */
  lemma {:induction false} SucceedsIff(kind: Kind, tuples: set<Tuple>, ts: seq<Tuple>, limit: nat, fate: Fate, from: nat)
    requires 0 < limit
    ensures Succeeds(kind, tuples, Chunks(ts, limit), fate, from)
            <==> Accepts(kind, tuples, ts) && AllLand(Chunks(ts, limit), fate, from)
    ensures Succeeds(kind, tuples, Chunks(ts, limit), fate, from) ==>
              Executed(kind, tuples, Chunks(ts, limit), fate, from) == Applied(kind, tuples, Elements(ts))
    decreases |ts|
  {
    if ts != [] {
      var m := if |ts| <= limit then |ts| else limit;
      ChunkOff(ts, limit, m);
      AcceptsOff(kind, tuples, ts, m);
      SucceedsIff(kind, Applied(kind, tuples, Elements(ts[..m])), ts[m..], limit, fate, from + 1);
    }
  }

  /** Whatever is rejected or fails, only the tuples of the chunks are ever touched. */
  lemma {:induction false} ExecutedInBounds(kind: Kind, tuples: set<Tuple>, ts: seq<Tuple>, limit: nat, fate: Fate, from: nat)
    requires 0 < limit
    ensures var after := Executed(kind, tuples, Chunks(ts, limit), fate, from);
            if kind == Write then tuples <= after <= tuples + Elements(ts)
            else tuples - Elements(ts) <= after <= tuples
    decreases |ts|
  {
    if ts != [] {
      var m := if |ts| <= limit then |ts| else limit;
      ChunkOff(ts, limit, m);
      ExecutedInBounds(kind, Posted(kind, tuples, ts[..m], fate(from)), ts[m..], limit, fate, from + 1);
    }
  }

  class Store {
    var tuples: set<Tuple>

    constructor (tuples: set<Tuple>)
      ensures this.tuples == tuples
    {
      this.tuples := tuples;
    }

    /** One request, all or nothing. */
    method Post(kind: Kind, chunk: seq<Tuple>, carriedOut: bool) returns (landed: bool)
      modifies this
      ensures landed <==> carriedOut && Accepts(kind, old(tuples), chunk)
      ensures tuples == Posted(kind, old(tuples), chunk, carriedOut)
    {
      landed := carriedOut && NoRepeat(chunk)
                && if kind == Write then Elements(chunk) !! tuples else Elements(chunk) <= tuples;
      if landed {
        tuples := Applied(kind, tuples, Elements(chunk));
      }
    }

    /** Sends every chunk; those that fail leave nothing behind and do not undo the others. */
    method SendChunks(kind: Kind, ts: seq<Tuple>, limit: nat, fate: Fate) returns (ok: bool)
      requires 0 < limit
      modifies this
      ensures tuples == Executed(kind, old(tuples), Chunks(ts, limit), fate, 0)
      ensures ok <==> Succeeds(kind, old(tuples), Chunks(ts, limit), fate, 0)
    {
      ok := true;
      var rest, c := ts, 0;
      while rest != []
        invariant Executed(kind, tuples, Chunks(rest, limit), fate, c)
               == Executed(kind, old(tuples), Chunks(ts, limit), fate, 0)
        invariant ok && Succeeds(kind, tuples, Chunks(rest, limit), fate, c)
                  <==> Succeeds(kind, old(tuples), Chunks(ts, limit), fate, 0)
        decreases |rest|
      {
        var m := if |rest| <= limit then |rest| else limit;
        ChunkOff(rest, limit, m);
        var landed := Post(kind, rest[..m], fate(c));
        ok := ok && landed;
        rest, c := rest[m..], c + 1;
      }
    }

    /** On every store: success means that no tuple existed or was repeated and that all are there now. */
    method ExecuteWrites(ts: seq<Tuple>, limit: nat, fate: Fate) returns (ok: bool)
      requires 0 < limit
      modifies this
      ensures tuples == Executed(Write, old(tuples), Chunks(ts, limit), fate, 0)
      ensures old(tuples) <= tuples <= old(tuples) + Elements(ts)
      ensures ok <==> Distinct(ts) && Elements(ts) !! old(tuples) && AllLand(Chunks(ts, limit), fate, 0)
      ensures ok ==> tuples == old(tuples) + Elements(ts)
    {
      SucceedsIff(Write, tuples, ts, limit, fate, 0);
      ExecutedInBounds(Write, tuples, ts, limit, fate, 0);
      ok := SendChunks(Write, ts, limit, fate);
    }

    /** On every store: success means that every tuple existed, none was repeated and all are gone now. */
    method ExecuteDeletes(ts: seq<Tuple>, limit: nat, fate: Fate) returns (ok: bool)
      requires 0 < limit
      modifies this
      ensures tuples == Executed(Delete, old(tuples), Chunks(ts, limit), fate, 0)
      ensures old(tuples) - Elements(ts) <= tuples <= old(tuples)
      ensures ok <==> Distinct(ts) && Elements(ts) <= old(tuples) && AllLand(Chunks(ts, limit), fate, 0)
      ensures ok ==> tuples == old(tuples) - Elements(ts)
    {
      SucceedsIff(Delete, tuples, ts, limit, fate, 0);
      ExecutedInBounds(Delete, tuples, ts, limit, fate, 0);
      ok := SendChunks(Delete, ts, limit, fate);
    }
  }

  predicate NoRepeat(s: seq<Tuple>)
    ensures NoRepeat(s) <==> Distinct(s)
  {
    if s == [] then true else
      assert s == [s[0]] + s[1..];
      s[0] !in s[1..] && NoRepeat(s[1..])
  }

  /** The first chunk and what remains. */
  lemma ChunkOff(ts: seq<Tuple>, limit: nat, m: nat)
    requires 0 < limit && ts != [] && m == if |ts| <= limit then |ts| else limit
    ensures Chunks(ts, limit) == [ts[..m]] + Chunks(ts[m..], limit)
    ensures Chunks(ts, limit)[1..] == Chunks(ts[m..], limit)
    ensures Elements(ts) == Elements(ts[..m]) + Elements(ts[m..])
    ensures Distinct(ts) ==> Distinct(ts[..m]) && Distinct(ts[m..]) && Elements(ts[..m]) !! Elements(ts[m..])
  {
    assert ts == ts[..m] + ts[m..];
    if |ts| <= limit {
      assert ts[..m] == ts && ts[m..] == [];
    }
  }
}
