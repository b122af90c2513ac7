/**
 Retries and runs of membership changes, request by request.  A call that fails returns at its first failing
 request, while others of its requests are still on their way and may reach the server later: during a retry,
 or during any other call.
 */
module MembershipRuns {
  import opened Sequences
  import opened TupleStore
  import opened Membership

  // ---------------------------------------------------------------------------------------------
  // The chunks of a call
  // ---------------------------------------------------------------------------------------------

  ghost predicate Shares(a: seq<Tuple>, b: seq<Tuple>) {
    exists t :: t in a && t in b
  }

  lemma {:induction false} ChunkIsPart(ts: seq<Tuple>, limit: nat, c: nat)
    requires 0 < limit && Distinct(ts) && c < |Chunks(ts, limit)|
    ensures var chunk := Chunks(ts, limit)[c];
            chunk != [] && Distinct(chunk) && Elements(chunk) <= Elements(ts)
    decreases |ts|
  {
    var m := if |ts| <= limit then |ts| else limit;
    ChunkOff(ts, limit, m);
    if c > 0 {
      ChunkIsPart(ts[m..], limit, c - 1);
      assert Chunks(ts, limit)[c] == Chunks(ts[m..], limit)[c - 1];
    }
  }

  lemma {:induction false} ChunksAreApart(ts: seq<Tuple>, limit: nat, c: nat, d: nat)
    requires 0 < limit && Distinct(ts) && c < d < |Chunks(ts, limit)|
    ensures !Shares(Chunks(ts, limit)[c], Chunks(ts, limit)[d])
    decreases |ts|
  {
    var m := if |ts| <= limit then |ts| else limit;
    ChunkOff(ts, limit, m);
    var rest := Chunks(ts[m..], limit);
    assert Chunks(ts, limit)[d] == rest[d - 1];
    if c > 0 {
      ChunksAreApart(ts[m..], limit, c - 1, d - 1);
      assert Chunks(ts, limit)[c] == rest[c - 1];
    } else {
      ChunkIsPart(ts[m..], limit, d - 1);
      forall t | t in rest[d - 1]
        ensures t !in ts[..m]
      {
        assert t in Elements(rest[d - 1]) && t in Elements(ts[m..]);
      }
    }
  }

  lemma {:induction false} ChunkHolding(ts: seq<Tuple>, limit: nat, t: Tuple) returns (c: nat)
    requires 0 < limit && t in ts
    ensures c < |Chunks(ts, limit)| && t in Chunks(ts, limit)[c]
    decreases |ts|
  {
    var m := if |ts| <= limit then |ts| else limit;
    ChunkOff(ts, limit, m);
    if t in ts[..m] {
      c := 0;
    } else {
      assert t in Elements(ts) && t in Elements(ts[m..]);
      var d := ChunkHolding(ts[m..], limit, t);
      c := d + 1;
      assert Chunks(ts, limit)[c] == Chunks(ts[m..], limit)[d];
    }
  }

  lemma {:induction false} LandedOnly(cs: seq<seq<Tuple>>, c: nat, from: nat)
    requires c < |cs|
    ensures Landed(cs, Only(from + c), from) == Elements(cs[c])
    decreases |cs|
  {
    if c == 0 {
      NothingLands(cs[1..], from, from + 1);
    } else {
      LandedOnly(cs[1..], c - 1, from + 1);
      assert from + 1 + (c - 1) == from + c;
    }
  }

  lemma {:induction false} LandedIsCarried(cs: seq<seq<Tuple>>, fate: Fate, from: nat, t: Tuple) returns (c: nat)
    requires t in Landed(cs, fate, from)
    ensures c < |cs| && fate(from + c) && t in cs[c]
    decreases |cs|
  {
    if fate(from) && t in cs[0] {
      c := 0;
    } else {
      var d := LandedIsCarried(cs[1..], fate, from + 1, t);
      c := d + 1;
      assert from + 1 + d == from + c;
    }
  }

  /** When the limit cannot split a pair, a request holds whole pairs. */
  lemma ChunkIsWhole(g: Group, users: seq<User>, limit: nat, c: nat)
    requires 0 < limit && Fits(users, limit) && c < |Chunks(Pairs(g, users), limit)|
    ensures WholePairs(Elements(Chunks(Pairs(g, users), limit)[c]), g)
  {
    PairsLandWhole(g, users, limit, Only(c));
    LandedOnly(Chunks(Pairs(g, users), limit), c, 0);
  }

  // ---------------------------------------------------------------------------------------------
  // A retry once the failed call has settled
  // ---------------------------------------------------------------------------------------------

  const ALWAYS: Fate := _ => true

  lemma {:induction false} AlwaysLands(cs: seq<seq<Tuple>>, from: nat)
    ensures AllLand(cs, ALWAYS, from)
  {
    if cs != [] {
      AlwaysLands(cs[1..], from + 1);
    }
  }

  /** A second attempt, in any order, all of whose requests are carried out. */
  ghost predicate RetrySucceeds(kind: Kind, tuples: set<Tuple>, g: Group, members: set<User>, order: seq<User>,
                                limit: nat, fate: Fate, again: seq<User>)
    requires 0 < limit
  {
    var mid := After(kind, tuples, g, order, limit, fate);
    && Completes(kind, mid, g, again, limit, ALWAYS)
    && MembersOf(After(kind, mid, g, again, limit, ALWAYS), g) == Goal(kind, tuples, g, members)
  }

  ghost predicate IsRetry(kind: Kind, tuples: set<Tuple>, g: Group, members: set<User>, order: seq<User>,
                          limit: nat, fate: Fate, again: seq<User>)
    requires 0 < limit
  {
    Enumerates(again, Concerned(kind, After(kind, tuples, g, order, limit, fate), g, members))
  }

  /** What one attempt leaves to do, the next one ends with. */
  lemma GoalIsKept(kind: Kind, tuples: set<Tuple>, g: Group, members: set<User>, order: seq<User>, limit: nat, fate: Fate)
    requires 0 < limit && Enumerates(order, Concerned(kind, tuples, g, members))
    ensures Goal(kind, After(kind, tuples, g, order, limit, fate), g, members) == Goal(kind, tuples, g, members)
  {
    var mid := After(kind, tuples, g, order, limit, fate);
    forall u
      ensures u in Goal(kind, mid, g, members) <==> u in Goal(kind, tuples, g, members)
    {
      AttemptStaysInBounds(kind, tuples, g, order, limit, fate, g, u);
    }
  }

  /**
   When no pair can be split and no request of the failed call is still on its way, a retry writes no existing
   tuple, deletes no missing one, and completes.
   */
  lemma RetryCompletes(kind: Kind, tuples: set<Tuple>, g: Group, members: set<User>, order: seq<User>,
                       limit: nat, fate: Fate, again: seq<User>)
    requires 0 < limit && Symmetric(tuples) && Enumerates(order, Concerned(kind, tuples, g, members))
    requires Fits(order, limit) && IsRetry(kind, tuples, g, members, order, limit, fate, again)
    ensures Accepts(kind, After(kind, tuples, g, order, limit, fate), Pairs(g, again))
    ensures RetrySucceeds(kind, tuples, g, members, order, limit, fate, again)
  {
    var mid := After(kind, tuples, g, order, limit, fate);
    FittingAttemptKeepsSymmetry(kind, tuples, g, members, order, limit, fate);
    AttemptIsAcceptable(kind, mid, g, members, again);
    SucceedsIff(kind, mid, Pairs(g, again), limit, ALWAYS, 0);
    AlwaysLands(Chunks(Pairs(g, again), limit), 0);
    SuccessReachesGoal(kind, mid, g, members, again, limit, ALWAYS);
    GoalIsKept(kind, tuples, g, members, order, limit, fate);
  }

  lemma OrderExists(users: set<User>) returns (order: seq<User>)
    ensures Enumerates(order, users)
  {
    order := [];
    var todo := users;
    while todo != {}
      invariant todo <= users && Distinct(order) && forall u :: u in order <==> u in users && u !in todo
      decreases todo
    {
      var u :| u in todo;
      order, todo := order + [u], todo - {u};
    }
  }

  // ---------------------------------------------------------------------------------------------
  // A retry with requests of the failed call still on their way
  // ---------------------------------------------------------------------------------------------

  /** A request of the failed call that arrives after the retry has read the members, or one of the retry. */
  datatype Request = Late(index: nat) | Again(index: nat)

  function ChunkOf(r: Request, first: seq<seq<Tuple>>, second: seq<seq<Tuple>>): seq<Tuple> {
    var cs := if r.Late? then first else second;
    if r.index < |cs| then cs[r.index] else []
  }

  /** The order in which the requests reach the server: all of the retry's, and some that were not there before. */
  ghost predicate Schedule(first: seq<seq<Tuple>>, second: seq<seq<Tuple>>, early: Fate, rs: seq<Request>) {
    && Distinct(rs)
    && (forall r :: r in rs && r.Late? ==> r.index < |first| && !early(r.index))
    && (forall r :: r in rs && r.Again? ==> r.index < |second|)
    && (forall i :: 0 <= i < |second| ==> Again(i) in rs)
  }

  ghost function Served(kind: Kind, tuples: set<Tuple>, first: seq<seq<Tuple>>, second: seq<seq<Tuple>>, rs: seq<Request>): set<Tuple> {
    if rs == [] then tuples
    else Posted(kind, Served(kind, tuples, first, second, rs[..|rs| - 1]), ChunkOf(rs[|rs| - 1], first, second), true)
  }

  ghost predicate AcceptedAt(kind: Kind, tuples: set<Tuple>, first: seq<seq<Tuple>>, second: seq<seq<Tuple>>,
                             rs: seq<Request>, p: nat)
    requires p < |rs|
  {
    Accepts(kind, Served(kind, tuples, first, second, rs[..p]), ChunkOf(rs[p], first, second))
  }

  /** The server accepts every request of the retry. */
  ghost predicate RetryAccepted(kind: Kind, tuples: set<Tuple>, first: seq<seq<Tuple>>, second: seq<seq<Tuple>>, rs: seq<Request>) {
    forall p :: 0 <= p < |rs| && rs[p].Again? ==> AcceptedAt(kind, tuples, first, second, rs, p)
  }

  /** A late request that arrives before every request of the retry that shares a tuple with it. */
  ghost predicate Overtakes(first: seq<seq<Tuple>>, second: seq<seq<Tuple>>, rs: seq<Request>, p: nat)
    requires p < |rs|
  {
    rs[p].Late? && forall q :: 0 <= q < p && rs[q].Again? ==> !Shares(ChunkOf(rs[q], first, second), ChunkOf(rs[p], first, second))
  }

  ghost predicate NoneOvertakes(first: seq<seq<Tuple>>, second: seq<seq<Tuple>>, rs: seq<Request>) {
    forall p :: 0 <= p < |rs| ==> !Overtakes(first, second, rs, p)
  }

  /** The tuple is as the change wants it. */
  predicate Done(kind: Kind, tuples: set<Tuple>, t: Tuple) {
    if kind == Write then t in tuples else t !in tuples
  }

  lemma AcceptsIff(kind: Kind, tuples: set<Tuple>, chunk: seq<Tuple>)
    ensures Accepts(kind, tuples, chunk) <==> Distinct(chunk) && forall t :: t in chunk ==> !Done(kind, tuples, t)
  {
    assert forall t :: t in chunk <==> t in Elements(chunk);
  }

  lemma PostedIsDone(kind: Kind, tuples: set<Tuple>, chunk: seq<Tuple>, t: Tuple)
    ensures Done(kind, Posted(kind, tuples, chunk, true), t)
            <==> Done(kind, tuples, t) || (Accepts(kind, tuples, chunk) && t in chunk)
  {
  }

  lemma ServedStep(kind: Kind, tuples: set<Tuple>, first: seq<seq<Tuple>>, second: seq<seq<Tuple>>, rs: seq<Request>, p: nat)
    requires p < |rs|
    ensures Served(kind, tuples, first, second, rs[..p + 1])
         == Posted(kind, Served(kind, tuples, first, second, rs[..p]), ChunkOf(rs[p], first, second), true)
  {
    assert rs[..p + 1][..p] == rs[..p];
  }

  lemma DoneStep(kind: Kind, tuples: set<Tuple>, first: seq<seq<Tuple>>, second: seq<seq<Tuple>>,
                 rs: seq<Request>, p: nat, t: Tuple)
    requires p < |rs| && Done(kind, Served(kind, tuples, first, second, rs[..p]), t)
    ensures Done(kind, Served(kind, tuples, first, second, rs[..p + 1]), t)
  {
    ServedStep(kind, tuples, first, second, rs, p);
    PostedIsDone(kind, Served(kind, tuples, first, second, rs[..p]), ChunkOf(rs[p], first, second), t);
  }

  /** What is done stays done. */
  lemma {:induction false} DoneStays(kind: Kind, tuples: set<Tuple>, first: seq<seq<Tuple>>, second: seq<seq<Tuple>>,
                                     rs: seq<Request>, p: nat, q: nat, t: Tuple)
    requires p <= q <= |rs| && Done(kind, Served(kind, tuples, first, second, rs[..p]), t)
    ensures Done(kind, Served(kind, tuples, first, second, rs[..q]), t)
    decreases q - p
  {
    if p < q {
      DoneStep(kind, tuples, first, second, rs, p, t);
      DoneStays(kind, tuples, first, second, rs, p + 1, q, t);
    }
  }

  /** A tuple of the retry that something else has done blocks the request that holds it. */
  lemma DoneBlocks(kind: Kind, tuples: set<Tuple>, first: seq<seq<Tuple>>, second: seq<seq<Tuple>>, rs: seq<Request>,
                   p: nat, q: nat, t: Tuple)
    requires p <= q < |rs| && rs[q].Again? && t in ChunkOf(rs[q], first, second)
    requires Done(kind, Served(kind, tuples, first, second, rs[..p]), t)
    ensures !RetryAccepted(kind, tuples, first, second, rs)
  {
    DoneStays(kind, tuples, first, second, rs, p, q, t);
    AcceptsIff(kind, Served(kind, tuples, first, second, rs[..q]), ChunkOf(rs[q], first, second));
    assert !AcceptedAt(kind, tuples, first, second, rs, q);
  }

  /** An overtaking request does a tuple that a later request of the retry holds. */
  lemma OvertakingBlocks(kind: Kind, tuples: set<Tuple>, first: seq<seq<Tuple>>, second: seq<seq<Tuple>>, early: Fate,
                         rs: seq<Request>, p: nat)
    requires Schedule(first, second, early, rs) && p < |rs| && Overtakes(first, second, rs, p)
    requires var late := ChunkOf(rs[p], first, second);
             late != [] && Distinct(late) && forall t :: t in late ==> exists i :: 0 <= i < |second| && t in second[i]
    ensures !RetryAccepted(kind, tuples, first, second, rs)
  {
    var before, late := Served(kind, tuples, first, second, rs[..p]), ChunkOf(rs[p], first, second);
    AcceptsIff(kind, before, late);
    ServedStep(kind, tuples, first, second, rs, p);
    var t := late[0];
    if !Accepts(kind, before, late) {
      t :| t in late && Done(kind, before, t);
    }
    PostedIsDone(kind, before, late, t);
    var i :| 0 <= i < |second| && t in second[i];
    assert Again(i) in rs;
    var q :| 0 <= q < |rs| && rs[q] == Again(i);
    if q < p {
      assert t in ChunkOf(rs[q], first, second) && Shares(ChunkOf(rs[q], first, second), late);
      assert false;
    }
    DoneBlocks(kind, tuples, first, second, rs, p + 1, q, t);
  }

  /** The requests of the retry are acceptable together. */
  ghost predicate Fresh(kind: Kind, tuples: set<Tuple>, second: seq<seq<Tuple>>) {
    && (forall i :: 0 <= i < |second| ==> Accepts(kind, tuples, second[i]))
    && (forall i, j :: 0 <= i < j < |second| ==> !Shares(second[i], second[j]))
  }

  /** A request of the retry among the first `n` holds the tuple. */
  ghost predicate Covered(first: seq<seq<Tuple>>, second: seq<seq<Tuple>>, rs: seq<Request>, n: nat, t: Tuple)
    requires n <= |rs|
  {
    exists q :: 0 <= q < n && rs[q].Again? && t in ChunkOf(rs[q], first, second)
  }

  /** What has been done when no late request overtakes: exactly what the retry asked for so far. */
  ghost predicate OnlyRetryDone(kind: Kind, tuples: set<Tuple>, first: seq<seq<Tuple>>, second: seq<seq<Tuple>>,
                                rs: seq<Request>, n: nat)
    requires n <= |rs|
  {
    forall t :: Done(kind, Served(kind, tuples, first, second, rs[..n]), t)
                <==> Done(kind, tuples, t) || Covered(first, second, rs, n, t)
  }

  lemma RetryIsAccepted(kind: Kind, tuples: set<Tuple>, first: seq<seq<Tuple>>, second: seq<seq<Tuple>>, early: Fate,
                        rs: seq<Request>, n: nat)
    requires Schedule(first, second, early, rs) && Fresh(kind, tuples, second) && n < |rs| && rs[n].Again?
    requires OnlyRetryDone(kind, tuples, first, second, rs, n)
    ensures AcceptedAt(kind, tuples, first, second, rs, n)
  {
    var chunk := ChunkOf(rs[n], first, second);
    assert rs[n] in rs && chunk == second[rs[n].index];
    AcceptsIff(kind, tuples, chunk);
    AcceptsIff(kind, Served(kind, tuples, first, second, rs[..n]), chunk);
    forall t | t in chunk
      ensures !Covered(first, second, rs, n, t)
    {
      if q :| 0 <= q < n && rs[q].Again? && t in ChunkOf(rs[q], first, second) {
        assert rs[q] in rs && rs[q] != rs[n];
        assert Shares(second[rs[q].index], second[rs[n].index]) && Shares(second[rs[n].index], second[rs[q].index]);
      }
    }
  }

  lemma LateIsRejected(kind: Kind, tuples: set<Tuple>, first: seq<seq<Tuple>>, second: seq<seq<Tuple>>, rs: seq<Request>, n: nat)
    requires n < |rs| && rs[n].Late? && !Overtakes(first, second, rs, n)
    requires OnlyRetryDone(kind, tuples, first, second, rs, n)
    ensures !AcceptedAt(kind, tuples, first, second, rs, n)
  {
    var q :| 0 <= q < n && rs[q].Again? && Shares(ChunkOf(rs[q], first, second), ChunkOf(rs[n], first, second));
    var t :| t in ChunkOf(rs[q], first, second) && t in ChunkOf(rs[n], first, second);
    assert Covered(first, second, rs, n, t);
    AcceptsIff(kind, Served(kind, tuples, first, second, rs[..n]), ChunkOf(rs[n], first, second));
  }

  lemma {:induction false} WithoutOvertaking(kind: Kind, tuples: set<Tuple>, first: seq<seq<Tuple>>, second: seq<seq<Tuple>>,
                                             early: Fate, rs: seq<Request>, n: nat)
    requires Schedule(first, second, early, rs) && Fresh(kind, tuples, second) && n <= |rs|
    requires NoneOvertakes(first, second, rs)
    ensures OnlyRetryDone(kind, tuples, first, second, rs, n)
    decreases n
  {
    if n > 0 {
      WithoutOvertaking(kind, tuples, first, second, early, rs, n - 1);
      ServedStep(kind, tuples, first, second, rs, n - 1);
      if rs[n - 1].Again? {
        RetryIsAccepted(kind, tuples, first, second, early, rs, n - 1);
      } else {
        LateIsRejected(kind, tuples, first, second, rs, n - 1);
      }
      forall t
        ensures Done(kind, Served(kind, tuples, first, second, rs[..n]), t)
                <==> Done(kind, tuples, t) || Covered(first, second, rs, n, t)
      {
        PostedIsDone(kind, Served(kind, tuples, first, second, rs[..n - 1]), ChunkOf(rs[n - 1], first, second), t);
        CoveredStep(first, second, rs, n - 1, t);
      }
    }
  }

  lemma CoveredStep(first: seq<seq<Tuple>>, second: seq<seq<Tuple>>, rs: seq<Request>, n: nat, t: Tuple)
    requires n < |rs|
    ensures Covered(first, second, rs, n + 1, t)
            <==> Covered(first, second, rs, n, t) || (rs[n].Again? && t in ChunkOf(rs[n], first, second))
  {
    if rs[n].Again? && t in ChunkOf(rs[n], first, second) {
      assert 0 <= n < n + 1;
    }
  }

  /** The requests of one call. */
  function RequestsOf(g: Group, order: seq<User>, limit: nat): seq<seq<Tuple>>
    requires 0 < limit
  {
    Chunks(Pairs(g, order), limit)
  }

  /** A request of the failed call that had not arrived when the retry read the members is about the retry's users. */
  lemma LateIsConcerned(kind: Kind, tuples: set<Tuple>, g: Group, members: set<User>, order: seq<User>,
                        limit: nat, early: Fate, again: seq<User>, c: nat, t: Tuple)
    requires 0 < limit && Symmetric(tuples) && Enumerates(order, Concerned(kind, tuples, g, members))
    requires Fits(order, limit) && IsRetry(kind, tuples, g, members, order, limit, early, again)
    requires c < |RequestsOf(g, order, limit)| && !early(c) && t in RequestsOf(g, order, limit)[c]
    ensures t in Pairs(g, again)
  {
    var cs, mid := RequestsOf(g, order, limit), After(kind, tuples, g, order, limit, early);
    PairsDistinct(g, order);
    PairsElements(g, order);
    PairsElements(g, again);
    ChunkIsPart(Pairs(g, order), limit, c);
    ChunkIsWhole(g, order, limit, c);
    assert t in Elements(cs[c]) && t in Elements(Pairs(g, order)) && IsPairTuple(g, order, t);
    var u := t.user;
    assert MemberOf(g, u) in Elements(cs[c]);
    NotCarriedNotLanded(g, order, limit, early, c, MemberOf(g, u));
    AttemptIsLanded(kind, tuples, g, members, order, limit, early, MemberOf(g, u));
    MembersAre(tuples, g, u);
    MembersAre(mid, g, u);
    assert u in order && u in Concerned(kind, tuples, g, members) && u in Concerned(kind, mid, g, members);
    assert IsPairTuple(g, again, t);
  }

  lemma NotCarriedNotLanded(g: Group, order: seq<User>, limit: nat, early: Fate, c: nat, t: Tuple)
    requires 0 < limit && Distinct(Pairs(g, order))
    requires c < |RequestsOf(g, order, limit)| && !early(c) && t in RequestsOf(g, order, limit)[c]
    ensures t !in Landed(RequestsOf(g, order, limit), early, 0)
  {
    var cs := RequestsOf(g, order, limit);
    if t in Landed(cs, early, 0) {
      var d := LandedIsCarried(cs, early, 0, t);
      assert Shares(cs[c], cs[d]) && Shares(cs[d], cs[c]);
      ChunksAreApart(Pairs(g, order), limit, if c < d then c else d, if c < d then d else c);
    }
  }

  lemma RetryIsFresh(kind: Kind, tuples: set<Tuple>, g: Group, again: seq<User>, limit: nat)
    requires 0 < limit && Accepts(kind, tuples, Pairs(g, again))
    ensures Fresh(kind, tuples, RequestsOf(g, again, limit))
  {
    var ts, cs := Pairs(g, again), RequestsOf(g, again, limit);
    forall i | 0 <= i < |cs|
      ensures Accepts(kind, tuples, cs[i])
    {
      ChunkIsPart(ts, limit, i);
    }
    forall i, j | 0 <= i < j < |cs|
      ensures !Shares(cs[i], cs[j])
    {
      ChunksAreApart(ts, limit, i, j);
    }
  }

  /** When nothing overtakes, the retry leaves what it would have left alone. */
  lemma ServedIsApplied(kind: Kind, tuples: set<Tuple>, g: Group, again: seq<User>, limit: nat,
                        first: seq<seq<Tuple>>, early: Fate, rs: seq<Request>)
    requires 0 < limit && Accepts(kind, tuples, Pairs(g, again))
    requires var second := RequestsOf(g, again, limit);
             Schedule(first, second, early, rs) && NoneOvertakes(first, second, rs)
    ensures Served(kind, tuples, first, RequestsOf(g, again, limit), rs) == Applied(kind, tuples, Elements(Pairs(g, again)))
  {
    var ts, second := Pairs(g, again), RequestsOf(g, again, limit);
    RetryIsFresh(kind, tuples, g, again, limit);
    WithoutOvertaking(kind, tuples, first, second, early, rs, |rs|);
    assert rs[..|rs|] == rs;
    forall t
      ensures Covered(first, second, rs, |rs|, t) <==> t in ts
    {
      if t in ts {
        var i := ChunkHolding(ts, limit, t);
        assert Again(i) in rs;
        var q :| 0 <= q < |rs| && rs[q] == Again(i);
        assert t in ChunkOf(rs[q], first, second);
      }
      if q :| 0 <= q < |rs| && rs[q].Again? && t in ChunkOf(rs[q], first, second) {
        assert rs[q] in rs;
        ChunkIsPart(ts, limit, rs[q].index);
        assert t in Elements(second[rs[q].index]) && t in Elements(ts);
      }
    }
    forall t
      ensures t in Served(kind, tuples, first, second, rs) <==> t in Applied(kind, tuples, Elements(ts))
    {
      assert Done(kind, Served(kind, tuples, first, second, rs[..|rs|]), t)
             <==> Done(kind, tuples, t) || Covered(first, second, rs, |rs|, t);
      assert t in ts <==> t in Elements(ts);
    }
  }

  /**
   When no pair can be split, a retry all of whose requests arrive, in any order, is accepted exactly when no
   request of the failed call overtakes it: arrives after the retry has read the members and before every
   request of the retry that shares a tuple with it.  Then it ends with the union, or the difference.
   */
  lemma RetryCompletesIff(kind: Kind, tuples: set<Tuple>, g: Group, members: set<User>, order: seq<User>,
                          limit: nat, early: Fate, again: seq<User>, rs: seq<Request>)
    requires 0 < limit && Symmetric(tuples) && Enumerates(order, Concerned(kind, tuples, g, members))
    requires Fits(order, limit) && IsRetry(kind, tuples, g, members, order, limit, early, again)
    requires Schedule(RequestsOf(g, order, limit), RequestsOf(g, again, limit), early, rs)
    ensures var mid, first, second :=
              After(kind, tuples, g, order, limit, early), RequestsOf(g, order, limit), RequestsOf(g, again, limit);
            && (RetryAccepted(kind, mid, first, second, rs) <==> NoneOvertakes(first, second, rs))
            && (NoneOvertakes(first, second, rs) ==>
                  MembersOf(Served(kind, mid, first, second, rs), g) == Goal(kind, tuples, g, members))
  {
    var mid, first, second :=
      After(kind, tuples, g, order, limit, early), RequestsOf(g, order, limit), RequestsOf(g, again, limit);
    RetryCompletes(kind, tuples, g, members, order, limit, early, again);
    if NoneOvertakes(first, second, rs) {
      RetryIsFresh(kind, mid, g, again, limit);
      forall p | 0 <= p < |rs| && rs[p].Again?
        ensures AcceptedAt(kind, mid, first, second, rs, p)
      {
        WithoutOvertaking(kind, mid, first, second, early, rs, p);
        RetryIsAccepted(kind, mid, first, second, early, rs, p);
      }
      ServedIsApplied(kind, mid, g, again, limit, first, early, rs);
      SucceedsIff(kind, mid, Pairs(g, again), limit, ALWAYS, 0);
    } else {
      var p :| 0 <= p < |rs| && Overtakes(first, second, rs, p);
      OvertakenRetryIsBlocked(kind, tuples, g, members, order, limit, early, again, rs, p);
    }
  }

  lemma OvertakenRetryIsBlocked(kind: Kind, tuples: set<Tuple>, g: Group, members: set<User>, order: seq<User>,
                                limit: nat, early: Fate, again: seq<User>, rs: seq<Request>, p: nat)
    requires 0 < limit && Symmetric(tuples) && Enumerates(order, Concerned(kind, tuples, g, members))
    requires Fits(order, limit) && IsRetry(kind, tuples, g, members, order, limit, early, again)
    requires Schedule(RequestsOf(g, order, limit), RequestsOf(g, again, limit), early, rs)
    requires p < |rs| && Overtakes(RequestsOf(g, order, limit), RequestsOf(g, again, limit), rs, p)
    ensures !RetryAccepted(kind, After(kind, tuples, g, order, limit, early),
                           RequestsOf(g, order, limit), RequestsOf(g, again, limit), rs)
  {
    var first, second := RequestsOf(g, order, limit), RequestsOf(g, again, limit);
    assert rs[p] in rs;
    PairsDistinct(g, order);
    ChunkIsPart(Pairs(g, order), limit, rs[p].index);
    forall t | t in ChunkOf(rs[p], first, second)
      ensures exists i :: 0 <= i < |second| && t in second[i]
    {
      LateIsConcerned(kind, tuples, g, members, order, limit, early, again, rs[p].index, t);
      var i := ChunkHolding(Pairs(g, again), limit, t);
    }
    OvertakingBlocks(kind, After(kind, tuples, g, order, limit, early), first, second, early, rs, p);
  }

  /** The requests of a retry, one after the other, with nothing in between. */
  function Undisturbed(n: nat): seq<Request> {
    seq(n, i requires 0 <= i < n => Again(i))
  }

  /** With a split pair, a retry always meets a tuple that the server rejects, in whatever order it goes. */
  lemma SplitPairBlocksRetry(kind: Kind, tuples: set<Tuple>, g: Group, members: set<User>, order: seq<User>,
                             limit: nat, again: seq<User>, rs: seq<Request>)
    requires 0 < limit && Symmetric(tuples) && Enumerates(order, Concerned(kind, tuples, g, members))
    requires !Fits(order, limit) && IsRetry(kind, tuples, g, members, order, limit, Only(1), again)
    requires Schedule(RequestsOf(g, order, limit), RequestsOf(g, again, limit), Only(1), rs)
    ensures !RetryAccepted(kind, After(kind, tuples, g, order, limit, Only(1)),
                           RequestsOf(g, order, limit), RequestsOf(g, again, limit), rs)
  {
    var mid, u := After(kind, tuples, g, order, limit, Only(1)), order[limit / 2];
    var first, second := RequestsOf(g, order, limit), RequestsOf(g, again, limit);
    OddAttemptSplitsAPair(kind, tuples, g, members, order, limit);
    MembersAre(mid, g, u);
    assert u in order && u in Concerned(kind, mid, g, members) && u in again;
    PairsElements(g, again);
    var t := GroupOf(u, g);
    assert IsPairTuple(g, again, t);
    var i := ChunkHolding(Pairs(g, again), limit, t);
    assert Again(i) in rs;
    var q :| 0 <= q < |rs| && rs[q] == Again(i);
    assert rs[..0] == [];
    DoneBlocks(kind, mid, first, second, rs, 0, q, t);
  }

  ghost predicate IsUndisturbedRetry(kind: Kind, tuples: set<Tuple>, g: Group, members: set<User>, order: seq<User>,
                                     limit: nat, early: Fate, again: seq<User>, rs: seq<Request>)
    requires 0 < limit
  {
    var first, second := RequestsOf(g, order, limit), RequestsOf(g, again, limit);
    && IsRetry(kind, tuples, g, members, order, limit, early, again)
    && Schedule(first, second, early, rs) && NoneOvertakes(first, second, rs)
  }

  ghost predicate RetryEndsWell(kind: Kind, tuples: set<Tuple>, g: Group, members: set<User>, order: seq<User>,
                                limit: nat, early: Fate, again: seq<User>, rs: seq<Request>)
    requires 0 < limit
  {
    var mid, first, second :=
      After(kind, tuples, g, order, limit, early), RequestsOf(g, order, limit), RequestsOf(g, again, limit);
    && RetryAccepted(kind, mid, first, second, rs)
    && MembersOf(Served(kind, mid, first, second, rs), g) == Goal(kind, tuples, g, members)
  }

  /** Every retry that is not overtaken completes, after every partial failure, exactly when no pair can be split. */
  lemma RetriesCompleteIff(kind: Kind, tuples: set<Tuple>, g: Group, members: set<User>, order: seq<User>, limit: nat)
    requires 0 < limit && Symmetric(tuples) && Enumerates(order, Concerned(kind, tuples, g, members))
    ensures (forall early: Fate, again: seq<User>, rs: seq<Request> ::
               IsUndisturbedRetry(kind, tuples, g, members, order, limit, early, again, rs)
               ==> RetryEndsWell(kind, tuples, g, members, order, limit, early, again, rs))
            <==> Fits(order, limit)
  {
    if Fits(order, limit) {
      forall early: Fate, again: seq<User>, rs: seq<Request>
        | IsUndisturbedRetry(kind, tuples, g, members, order, limit, early, again, rs)
        ensures RetryEndsWell(kind, tuples, g, members, order, limit, early, again, rs)
      {
        RetryCompletesIff(kind, tuples, g, members, order, limit, early, again, rs);
      }
    } else {
      var early: Fate := Only(1);
      var again := OrderExists(Concerned(kind, After(kind, tuples, g, order, limit, early), g, members));
      var rs := Undisturbed(|RequestsOf(g, again, limit)|);
      assert forall i :: 0 <= i < |rs| ==> rs[i] == Again(i);
      assert IsUndisturbedRetry(kind, tuples, g, members, order, limit, early, again, rs);
      SplitPairBlocksRetry(kind, tuples, g, members, order, limit, again, rs);
      assert !RetryEndsWell(kind, tuples, g, members, order, limit, early, again, rs);
    }
  }

  /** Three tuples a request, two users, only the second request carried out: the retry adds nobody. */
  lemma RejectedRetryAddsNobody(g: Group, u0: User, u1: User)
    requires u0 != u1
    ensures var mid := After(Write, {}, g, [u0, u1], 3, Only(1));
            && mid == {GroupOf(u1, g)}
            && IsRetry(Write, {}, g, {u0, u1}, [u0, u1], 3, Only(1), [u1, u0])
            && MembersOf(After(Write, mid, g, [u1, u0], 3, ALWAYS), g) == {}
  {
    TwoUsersThreeTuples(g, u0, u1, {}, Only(1));
    TwoUsersThreeTuples(g, u1, u0, {GroupOf(u1, g)}, ALWAYS);
  }

  lemma TwoUsersThreeTuples(g: Group, a: User, b: User, tuples: set<Tuple>, fate: Fate)
    ensures After(Write, tuples, g, [a, b], 3, fate)
         == Posted(Write, Posted(Write, tuples, [MemberOf(g, a), GroupOf(a, g), MemberOf(g, b)], fate(0)),
                   [GroupOf(b, g)], fate(1))
  {
    var first, second := [MemberOf(g, a), GroupOf(a, g), MemberOf(g, b)], [GroupOf(b, g)];
    assert [a, b][1..] == [b] && [b][1..] == [];
    assert Pairs(g, [b]) == [MemberOf(g, b), GroupOf(b, g)] + Pairs(g, []);
    assert Pairs(g, [a, b]) == first + second;
    ChunkOff(first + second, 3, 3);
    ChunkOff(second, 3, 1);
    assert (first + second)[..3] == first && (first + second)[3..] == second;
    assert Chunks(first + second, 3) == [first, second] && [first, second][1..] == [second];
    var mid := Posted(Write, tuples, first, fate(0));
    assert Executed(Write, mid, [second], fate, 1) == Posted(Write, mid, second, fate(1));
  }

  function PairOf(g: Group, u: User): seq<Tuple> {
    [MemberOf(g, u), GroupOf(u, g)]
  }

  lemma ThreeUsersFourTuples(g: Group, a: User, b: User, c: User)
    ensures RequestsOf(g, [a, b, c], 4) == [PairOf(g, a) + PairOf(g, b), PairOf(g, c)]
  {
    var first, second := PairOf(g, a) + PairOf(g, b), PairOf(g, c);
    assert [a, b, c][1..] == [b, c] && [b, c][1..] == [c] && [c][1..] == [];
    assert Pairs(g, [c]) == PairOf(g, c) + Pairs(g, []);
    assert Pairs(g, [b, c]) == PairOf(g, b) + Pairs(g, [c]);
    assert Pairs(g, [a, b, c]) == first + second;
    ChunkOff(first + second, 4, 4);
    ChunkOff(second, 4, 2);
    assert (first + second)[..4] == first && (first + second)[4..] == second;
  }

  /**
   Four tuples a request, three users: the request for the first two fails, the one for the third is late.  The
   retry reads nobody and asks for the third user first; the late request overtakes it, and although all its
   requests arrive, the first user is not added.
   */
  lemma OvertakenRetryLosesUser(g: Group, a: User, b: User, c: User)
    requires a != b && b != c && a != c
    ensures var order, again, rs := [a, b, c], [c, a, b], [Late(1), Again(0), Again(1)];
            var first, second, none := RequestsOf(g, order, 4), RequestsOf(g, again, 4), NEVER;
            var mid := After(Write, {}, g, order, 4, none);
            && Fits(order, 4) && IsRetry(Write, {}, g, {a, b, c}, order, 4, none, again)
            && Schedule(first, second, none, rs) && Overtakes(first, second, rs, 0)
            && MembersOf(Served(Write, mid, first, second, rs), g) == {b, c}
  {
    ThreeUsersFourTuples(g, a, b, c);
    ThreeUsersFourTuples(g, c, a, b);
    var first, second := RequestsOf(g, [a, b, c], 4), RequestsOf(g, [c, a, b], 4);
    NeverExecutes(Write, {}, first, 0);
    LateThenRetry(g, a, b, c, [Late(1), Again(0), Again(1)]);
  }

  lemma LateThenRetry(g: Group, a: User, b: User, c: User, rs: seq<Request>)
    requires a != b && b != c && a != c && rs == [Late(1), Again(0), Again(1)]
    ensures Served(Write, {}, [PairOf(g, a) + PairOf(g, b), PairOf(g, c)], [PairOf(g, c) + PairOf(g, a), PairOf(g, b)], rs)
         == Elements(PairOf(g, c)) + Elements(PairOf(g, b))
  {
    var first, second := [PairOf(g, a) + PairOf(g, b), PairOf(g, c)], [PairOf(g, c) + PairOf(g, a), PairOf(g, b)];
    assert rs[..0] == [] && rs[..3] == rs;
    ServedStep(Write, {}, first, second, rs, 0);
    ServedStep(Write, {}, first, second, rs, 1);
    ServedStep(Write, {}, first, second, rs, 2);
    var t1 := Served(Write, {}, first, second, rs[..1]);
    assert t1 == Elements(PairOf(g, c));
    assert (PairOf(g, c) + PairOf(g, a))[0] == MemberOf(g, c) && PairOf(g, c)[0] == MemberOf(g, c);
    assert MemberOf(g, c) in Elements(PairOf(g, c) + PairOf(g, a)) && MemberOf(g, c) in t1;
    assert Served(Write, {}, first, second, rs[..2]) == t1;
    assert Accepts(Write, t1, PairOf(g, b));
  }

  const NEVER: Fate := _ => false

  lemma {:induction false} NeverExecutes(kind: Kind, tuples: set<Tuple>, cs: seq<seq<Tuple>>, from: nat)
    ensures Executed(kind, tuples, cs, NEVER, from) == tuples
    decreases |cs|
  {
    if cs != [] {
      NeverExecutes(kind, tuples, cs[1..], from + 1);
    }
  }

  // ---------------------------------------------------------------------------------------------
  // Whole runs, request by request
  // ---------------------------------------------------------------------------------------------

  /** One request of some addition or removal reaches the server, or fails; whatever its call had read, and when. */
  ghost predicate Requested(tuples: set<Tuple>, tuples': set<Tuple>, limit: nat)
    requires 0 < limit
  {
    exists kind, g, users, c, carriedOut ::
      0 <= c < |RequestsOf(g, users, limit)| && tuples' == Posted(kind, tuples, RequestsOf(g, users, limit)[c], carriedOut)
  }

  lemma RequestKeepsSymmetry(tuples: set<Tuple>, tuples': set<Tuple>, limit: nat)
    requires 0 < limit && limit % 2 == 0 && Symmetric(tuples) && Requested(tuples, tuples', limit)
    ensures Symmetric(tuples')
  {
    var kind, g, users, c, carriedOut :|
      0 <= c < |RequestsOf(g, users, limit)| && tuples' == Posted(kind, tuples, RequestsOf(g, users, limit)[c], carriedOut);
    ChunkIsWhole(g, users, limit, c);
    WholePairsKeepSymmetry(tuples, Elements(RequestsOf(g, users, limit)[c]), g);
  }

  /**
   With an even limit the two sides of membership agree after every run, under every interleaving of the requests
   of any additions and removals, late ones and overlapping calls included.
   */
  lemma {:induction false} SymmetryOverRuns(limit: nat, states: seq<set<Tuple>>)
    requires 0 < limit && limit % 2 == 0 && states != [] && Symmetric(states[0])
    requires forall i :: 0 < i < |states| ==> Requested(states[i - 1], states[i], limit)
    ensures Symmetric(states[|states| - 1])
  {
    if |states| > 1 {
      SymmetryOverRuns(limit, states[..|states| - 1]);
      assert Requested(states[|states| - 1 - 1], states[|states| - 1], limit);
      RequestKeepsSymmetry(states[|states| - 2], states[|states| - 1], limit);
    }
  }

  ghost predicate KeepsSymmetry(limit: nat)
    requires 0 < limit
  {
    forall tuples, tuples' :: Symmetric(tuples) && Requested(tuples, tuples', limit) ==> Symmetric(tuples')
  }

  /** That every single request keeps the two sides in agreement is so exactly of even limits. */
  lemma RequestsKeepSymmetryIff(limit: nat)
    requires 0 < limit
    ensures KeepsSymmetry(limit) <==> limit % 2 == 0
  {
    if limit % 2 == 0 {
      forall tuples, tuples' | Symmetric(tuples) && Requested(tuples, tuples', limit)
        ensures Symmetric(tuples')
      {
        RequestKeepsSymmetry(tuples, tuples', limit);
      }
    } else {
      var g, half, none := Group(0), limit / 2, {};
      var users := seq(half + 1, i => User(i));
      assert limit == 2 * half + 1;
      PairsDistinct(g, users);
      PairsSplit(g, users, 0);
      var cs := RequestsOf(g, users, limit);
      ChunkOff(Pairs(g, users), limit, limit);
      ChunkIsPart(Pairs(g, users), limit, 0);
      OddChunkSplitsAPair(g, users, half);
      LandedOnly(cs, 0, 0);
      var after := Posted(Write, none, cs[0], true);
      assert Requested(none, after, limit);
      assert MemberOf(g, users[half]) in after && GroupOf(users[half], g) !in after;
      assert Symmetric(none) && !Symmetric(after);
    }
  }
}
