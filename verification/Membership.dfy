/**
 Group membership is stored twice, from the group's side and from the user's.  Adding and removing members
 writes both tuples of each user next to each other, so that what a failed request leaves behind depends on
 whether a chunk can split the pair.
 */
module Membership {
  import opened Sequences
  import opened TupleStore

  function MembersOf(tuples: set<Tuple>, g: Group): set<User> {
    set t | t in tuples && t.MemberOf? && t.group == g :: t.user
  }

  /** "u is a member of g" and "g is a group of u" are stored together or not at all. */
  ghost predicate Symmetric(tuples: set<Tuple>) {
    forall g, u :: MemberOf(g, u) in tuples <==> GroupOf(u, g) in tuples
  }

  /** The two tuples of each user, side by side. */
  function Pairs(g: Group, users: seq<User>): seq<Tuple> {
    if users == [] then [] else [MemberOf(g, users[0]), GroupOf(users[0], g)] + Pairs(g, users[1..])
  }

  /** One of the two tuples that make one of the users a member. */
  predicate IsPairTuple(g: Group, users: seq<User>, t: Tuple) {
    match t
    case MemberOf(g', u) => g' == g && u in users
    case GroupOf(u, g') => g' == g && u in users
    case Granted(_, _, _) => false
  }

  /** The users in some order, each once. */
  ghost predicate Enumerates(users: seq<User>, s: set<User>) {
    Distinct(users) && forall u :: u in users <==> u in s
  }

  lemma {:induction false} PairsElements(g: Group, users: seq<User>)
    ensures forall t :: t in Pairs(g, users) <==> IsPairTuple(g, users, t)
  {
    if users != [] {
      PairsElements(g, users[1..]);
      assert users == [users[0]] + users[1..];
      forall t
        ensures t in Pairs(g, users) <==> IsPairTuple(g, users, t)
      {
        assert t in Pairs(g, users) <==>
               t == MemberOf(g, users[0]) || t == GroupOf(users[0], g) || t in Pairs(g, users[1..]);
      }
    }
  }

  lemma {:induction false} PairsDistinct(g: Group, users: seq<User>)
    requires Distinct(users)
    ensures Distinct(Pairs(g, users))
  {
    if users != [] {
      PairsDistinct(g, users[1..]);
      PairsElements(g, users[1..]);
      assert users[0] !in users[1..];
      var head, tail := [MemberOf(g, users[0]), GroupOf(users[0], g)], Pairs(g, users[1..]);
      assert head[0] !in tail && head[1] !in tail;
      DistinctConcat(head, tail);
    }
  }

  lemma DistinctConcat(a: seq<Tuple>, b: seq<Tuple>)
    requires Distinct(a) && Distinct(b) && forall t :: t in a ==> t !in b
    ensures Distinct(a + b)
  {
    forall i, j | 0 <= i < j < |a + b|
      ensures (a + b)[i] != (a + b)[j]
    {
      assert i < |a| ==> a[i] in a;
      assert j >= |a| ==> b[j - |a|] in b;
    }
  }

  /** The pairs of a set of users, in the arbitrary order of a hash set. */
  ghost predicate PairsOf(g: Group, users: set<User>, ts: seq<Tuple>) {
    exists order :: Enumerates(order, users) && ts == Pairs(g, order)
  }

  method PushPairs(g: Group, users: set<User>) returns (ts: seq<Tuple>)
    ensures PairsOf(g, users, ts)
  {
    ts := [];
    ghost var order := [];
    var todo := users;
    while todo != {}
      invariant todo <= users && ts == Pairs(g, order)
      invariant Distinct(order) && forall u :: u in order <==> u in users && u !in todo
      decreases todo
    {
      var u :| u in todo;
      PairsAppend(g, order, u);
      ts, order, todo := ts + [MemberOf(g, u), GroupOf(u, g)], order + [u], todo - {u};
    }
    assert Enumerates(order, users);
  }

  lemma {:induction false} PairsAppend(g: Group, users: seq<User>, u: User)
    ensures Pairs(g, users + [u]) == Pairs(g, users) + [MemberOf(g, u), GroupOf(u, g)]
  {
    if users != [] {
      assert (users + [u])[1..] == users[1..] + [u];
      PairsAppend(g, users[1..], u);
    } else {
      assert (users + [u])[1..] == [];
    }
  }

  // ---------------------------------------------------------------------------------------------
  // The operations
  // ---------------------------------------------------------------------------------------------

  /** The users an addition or a removal is about: the missing ones, or those that are there. */
  function Concerned(kind: Kind, tuples: set<Tuple>, g: Group, members: set<User>): set<User> {
    if kind == Write then members - MembersOf(tuples, g) else members * MembersOf(tuples, g)
  }

  /** What an attempt leaves in the store, whichever of its requests are carried out and accepted. */
  ghost function After(kind: Kind, tuples: set<Tuple>, g: Group, order: seq<User>, limit: nat, fate: Fate): set<Tuple>
    requires 0 < limit
  {
    Executed(kind, tuples, Chunks(Pairs(g, order), limit), fate, 0)
  }

  ghost predicate Completes(kind: Kind, tuples: set<Tuple>, g: Group, order: seq<User>, limit: nat, fate: Fate)
    requires 0 < limit
  {
    Succeeds(kind, tuples, Chunks(Pairs(g, order), limit), fate, 0)
  }

  /** Adds the members the group does not have yet. */
  method AddMembers(store: Store, g: Group, members: set<User>, limit: nat, fate: Fate)
    returns (ok: bool, ghost order: seq<User>)
    requires 0 < limit
    modifies store
    ensures Enumerates(order, Concerned(Write, old(store.tuples), g, members))
    ensures store.tuples == After(Write, old(store.tuples), g, order, limit, fate)
    ensures ok <==> Completes(Write, old(store.tuples), g, order, limit, fate)
    ensures ok ==> MembersOf(store.tuples, g) == MembersOf(old(store.tuples), g) + members
    ensures Symmetric(old(store.tuples)) ==> (ok <==> AllLand(Chunks(Pairs(g, order), limit), fate, 0))
  {
    var existing := MembersOf(store.tuples, g);
    var writes := PushPairs(g, members - existing);
    order :| Enumerates(order, members - existing) && writes == Pairs(g, order);
    AttemptIsAcceptable(Write, store.tuples, g, members, order);
    SuccessReachesGoal(Write, store.tuples, g, members, order, limit, fate);
    SucceedsIff(Write, store.tuples, writes, limit, fate, 0);
    ok := store.ExecuteWrites(writes, limit, fate);
  }

  /** Removes those of the members the group has. */
  method RemoveMembers(store: Store, g: Group, members: set<User>, limit: nat, fate: Fate)
    returns (ok: bool, ghost order: seq<User>)
    requires 0 < limit
    modifies store
    ensures Enumerates(order, Concerned(Delete, old(store.tuples), g, members))
    ensures store.tuples == After(Delete, old(store.tuples), g, order, limit, fate)
    ensures ok <==> Completes(Delete, old(store.tuples), g, order, limit, fate)
    ensures ok ==> MembersOf(store.tuples, g) == MembersOf(old(store.tuples), g) - members
    ensures Symmetric(old(store.tuples)) ==> (ok <==> AllLand(Chunks(Pairs(g, order), limit), fate, 0))
  {
    var existing := MembersOf(store.tuples, g);
    var deletes := PushPairs(g, members * existing);
    order :| Enumerates(order, members * existing) && deletes == Pairs(g, order);
    AttemptIsAcceptable(Delete, store.tuples, g, members, order);
    SuccessReachesGoal(Delete, store.tuples, g, members, order, limit, fate);
    SucceedsIff(Delete, store.tuples, deletes, limit, fate, 0);
    ok := store.ExecuteDeletes(deletes, limit, fate);
  }

  lemma MembersAre(tuples: set<Tuple>, g: Group, u: User)
    ensures u in MembersOf(tuples, g) <==> MemberOf(g, u) in tuples
  {
  }

  /** In a symmetric store an attempt writes no existing tuple and deletes no missing one. */
  lemma AttemptIsAcceptable(kind: Kind, tuples: set<Tuple>, g: Group, members: set<User>, order: seq<User>)
    requires Enumerates(order, Concerned(kind, tuples, g, members))
    ensures Symmetric(tuples) ==> Accepts(kind, tuples, Pairs(g, order))
  {
    PairsDistinct(g, order);
    PairsElements(g, order);
    forall u
      ensures u in MembersOf(tuples, g) <==> MemberOf(g, u) in tuples
    {
      MembersAre(tuples, g, u);
    }
  }

  /** Whatever fails, only the members it was asked about change, in the group it was asked about. */
  lemma AttemptStaysInBounds(kind: Kind, tuples: set<Tuple>, g: Group, order: seq<User>, limit: nat, fate: Fate,
                             g': Group, u: User)
    requires 0 < limit
    ensures var before, after := MembersOf(tuples, g'), MembersOf(After(kind, tuples, g, order, limit, fate), g');
            && (g' != g || u !in order ==> (u in after <==> u in before))
            && (kind == Write && u in before ==> u in after)
            && (kind == Delete && u in after ==> u in before)
  {
    ExecutedInBounds(kind, tuples, Pairs(g, order), limit, fate, 0);
    PairsElements(g, order);
    MembersAre(tuples, g', u);
    MembersAre(After(kind, tuples, g, order, limit, fate), g', u);
    assert MemberOf(g', u) in Pairs(g, order) <==> IsPairTuple(g, order, MemberOf(g', u));
  }

  /** The members an attempt is to end with. */
  function Goal(kind: Kind, tuples: set<Tuple>, g: Group, members: set<User>): set<User> {
    if kind == Write then MembersOf(tuples, g) + members else MembersOf(tuples, g) - members
  }

  /** On every store, an attempt that succeeds ends with exactly the union, or the difference. */
  lemma SuccessReachesGoal(kind: Kind, tuples: set<Tuple>, g: Group, members: set<User>, order: seq<User>,
                           limit: nat, fate: Fate)
    requires 0 < limit && Enumerates(order, Concerned(kind, tuples, g, members))
    ensures Completes(kind, tuples, g, order, limit, fate) ==>
              MembersOf(After(kind, tuples, g, order, limit, fate), g) == Goal(kind, tuples, g, members)
  {
    SucceedsIff(kind, tuples, Pairs(g, order), limit, fate, 0);
    PairsElements(g, order);
    var after := After(kind, tuples, g, order, limit, fate);
    forall u | Completes(kind, tuples, g, order, limit, fate)
      ensures u in MembersOf(after, g) <==> u in Goal(kind, tuples, g, members)
    {
      MembersAre(tuples, g, u);
      MembersAre(after, g, u);
      assert MemberOf(g, u) in Pairs(g, order) <==> IsPairTuple(g, order, MemberOf(g, u));
    }
  }

  // ---------------------------------------------------------------------------------------------
  // Symmetry under partial failure
  // ---------------------------------------------------------------------------------------------

  /** What lands of the pairs of a group is whole pairs. */
  ghost predicate WholePairs(ts: set<Tuple>, g: Group) {
    forall t :: t in ts ==>
      match t
      case MemberOf(g', u) => g' == g && GroupOf(u, g) in ts
      case GroupOf(u, g') => g' == g && MemberOf(g, u) in ts
      case Granted(_, _, _) => false
  }

  lemma {:induction false} PairsSplit(g: Group, users: seq<User>, n: nat)
    requires n <= |users|
    ensures |Pairs(g, users)| == 2 * |users|
    ensures Pairs(g, users)[..2 * n] == Pairs(g, users[..n])
    ensures Pairs(g, users)[2 * n..] == Pairs(g, users[n..])
  {
    if n == 0 {
      assert users[0..] == users;
      if users != [] {
        PairsSplit(g, users[1..], 0);
      }
    } else {
      PairsSplit(g, users[1..], n - 1);
      assert users[..n][1..] == users[1..][..n - 1];
      assert users[n..] == users[1..][n - 1..];
    }
  }

  /** A chunk that holds an even number of tuples never splits a pair. */
  lemma {:induction false} EvenChunksKeepPairs(g: Group, users: seq<User>, half: nat, fate: Fate, from: nat)
    requires 0 < half
    ensures WholePairs(Landed(Chunks(Pairs(g, users), 2 * half), fate, from), g)
    decreases |users|
  {
    if users != [] {
      var ts, n := Pairs(g, users), if |users| <= half then |users| else half;
      PairsSplit(g, users, n);
      ChunkOff(ts, 2 * half, 2 * n);
      PairsElements(g, users[..n]);
      EvenChunksKeepPairs(g, users[n..], half, fate, from + 1);
    }
  }

  lemma OneChunkKeepsPairs(g: Group, users: seq<User>, limit: nat, fate: Fate)
    requires 0 < limit && 2 * |users| <= limit
    ensures WholePairs(Landed(Chunks(Pairs(g, users), limit), fate, 0), g)
  {
    PairsSplit(g, users, 0);
    PairsElements(g, users);
    if users != [] {
      assert Chunks(Pairs(g, users), limit) == [Pairs(g, users)];
    }
  }

  lemma WholePairsKeepSymmetry(tuples: set<Tuple>, ts: set<Tuple>, g: Group)
    requires Symmetric(tuples) && WholePairs(ts, g)
    ensures Symmetric(tuples + ts) && Symmetric(tuples - ts)
  {
  }

  /** Only the request of this number is carried out. */
  function Only(n: nat): Fate {
    c => c == n
  }

  /** An odd chunk splits the pair of the user in its middle when only the first request is carried out. */
  lemma OddChunkSplitsAPair(g: Group, users: seq<User>, half: nat)
    requires Distinct(users) && half < |users|
    ensures var landed := Landed(Chunks(Pairs(g, users), 2 * half + 1), Only(0), 0);
            MemberOf(g, users[half]) in landed && GroupOf(users[half], g) !in landed
  {
    var ts, limit := Pairs(g, users), 2 * half + 1;
    PairsSplit(g, users, half);
    assert ts[2 * half..][0] == MemberOf(g, users[half]) && ts[2 * half..][1] == GroupOf(users[half], g);
    ChunkOff(ts, limit, limit);
    PairsDistinct(g, users);
    NothingLands(Chunks(ts[limit..], limit), 0, 1);
    var first := ts[..limit];
    assert first[2 * half] == MemberOf(g, users[half]);
    assert ts[limit] == GroupOf(users[half], g);
    assert GroupOf(users[half], g) !in first;
  }

  /** When only the second request is carried out, the other tuple of that user lands alone. */
  lemma OddChunkLeavesTheOther(g: Group, users: seq<User>, half: nat)
    requires Distinct(users) && half < |users|
    ensures var landed := Landed(Chunks(Pairs(g, users), 2 * half + 1), Only(1), 0);
            MemberOf(g, users[half]) !in landed && GroupOf(users[half], g) in landed
  {
    var ts, limit := Pairs(g, users), 2 * half + 1;
    PairsSplit(g, users, half);
    assert ts[2 * half..][0] == MemberOf(g, users[half]) && ts[2 * half..][1] == GroupOf(users[half], g);
    ChunkOff(ts, limit, limit);
    PairsDistinct(g, users);
    var rest := ts[limit..];
    var m := if |rest| <= limit then |rest| else limit;
    ChunkOff(rest, limit, m);
    NothingLands(Chunks(rest[m..], limit), 1, 2);
    assert rest[..m][0] == ts[limit] == GroupOf(users[half], g);
    assert ts[2 * half] !in rest[..m];
  }

  lemma {:induction false} NothingLands(cs: seq<seq<Tuple>>, only: nat, from: nat)
    requires only < from
    ensures Landed(cs, Only(only), from) == {}
  {
    if cs != [] {
      NothingLands(cs[1..], only, from + 1);
    }
  }

  /** The write limit cannot split a pair: it is even, or everything fits in one request. */
  predicate Fits(users: seq<User>, limit: nat) {
    limit % 2 == 0 || 2 * |users| <= limit
  }

  lemma PairsLandWhole(g: Group, users: seq<User>, limit: nat, fate: Fate)
    requires 0 < limit && Fits(users, limit)
    ensures WholePairs(Landed(Chunks(Pairs(g, users), limit), fate, 0), g)
  {
    if limit % 2 == 0 {
      assert limit == 2 * (limit / 2);
      EvenChunksKeepPairs(g, users, limit / 2, fate, 0);
    } else {
      OneChunkKeepsPairs(g, users, limit, fate);
    }
  }

  lemma FittingAttemptKeepsSymmetry(kind: Kind, tuples: set<Tuple>, g: Group, members: set<User>, order: seq<User>,
                                    limit: nat, fate: Fate)
    requires 0 < limit && Symmetric(tuples) && Enumerates(order, Concerned(kind, tuples, g, members))
    requires Fits(order, limit)
    ensures Symmetric(After(kind, tuples, g, order, limit, fate))
  {
    AttemptIsAcceptable(kind, tuples, g, members, order);
    ExecutedIsLanded(kind, tuples, Pairs(g, order), limit, fate, 0);
    PairsLandWhole(g, order, limit, fate);
    WholePairsKeepSymmetry(tuples, Landed(Chunks(Pairs(g, order), limit), fate, 0), g);
  }

  /** An acceptable attempt with a fate changes exactly the tuples that land. */
  lemma AttemptIsLanded(kind: Kind, tuples: set<Tuple>, g: Group, members: set<User>, order: seq<User>,
                        limit: nat, fate: Fate, t: Tuple)
    requires 0 < limit && Symmetric(tuples) && Enumerates(order, Concerned(kind, tuples, g, members))
    ensures var landed := t in Landed(Chunks(Pairs(g, order), limit), fate, 0);
            t in After(kind, tuples, g, order, limit, fate)
            <==> if kind == Write then t in tuples || landed else t in tuples && !landed
  {
    AttemptIsAcceptable(kind, tuples, g, members, order);
    ExecutedIsLanded(kind, tuples, Pairs(g, order), limit, fate, 0);
  }

  /** What an odd limit does to the user in the middle of the first chunk when only one request is carried out. */
  lemma OddAttemptSplitsAPair(kind: Kind, tuples: set<Tuple>, g: Group, members: set<User>, order: seq<User>, limit: nat)
    requires 0 < limit && Symmetric(tuples) && Enumerates(order, Concerned(kind, tuples, g, members))
    requires !Fits(order, limit)
    ensures var u := order[limit / 2];
            var first, second := After(kind, tuples, g, order, limit, Only(0)), After(kind, tuples, g, order, limit, Only(1));
            && (MemberOf(g, u) in first <==> GroupOf(u, g) !in first)
            && (MemberOf(g, u) in second <==> u in MembersOf(tuples, g))
            && (GroupOf(u, g) in second <==> u !in MembersOf(tuples, g))
  {
    var half := limit / 2;
    assert limit == 2 * half + 1;
    var u := order[half];
    assert u in order && u in Concerned(kind, tuples, g, members);
    MembersAre(tuples, g, u);
    OddChunkSplitsAPair(g, order, half);
    OddChunkLeavesTheOther(g, order, half);
    AttemptIsLanded(kind, tuples, g, members, order, limit, Only(0), MemberOf(g, u));
    AttemptIsLanded(kind, tuples, g, members, order, limit, Only(0), GroupOf(u, g));
    AttemptIsLanded(kind, tuples, g, members, order, limit, Only(1), MemberOf(g, u));
    AttemptIsLanded(kind, tuples, g, members, order, limit, Only(1), GroupOf(u, g));
  }

  /**
   Membership stays symmetric whichever requests of an addition or a removal fail exactly when the write limit
   is even or everything fits in one request.
   */
  lemma SymmetryIffPairsFit(kind: Kind, tuples: set<Tuple>, g: Group, members: set<User>, order: seq<User>, limit: nat)
    requires 0 < limit && Symmetric(tuples) && Enumerates(order, Concerned(kind, tuples, g, members))
    ensures (forall fate: Fate :: Symmetric(After(kind, tuples, g, order, limit, fate))) <==> Fits(order, limit)
  {
    if Fits(order, limit) {
      forall fate: Fate
        ensures Symmetric(After(kind, tuples, g, order, limit, fate))
      {
        FittingAttemptKeepsSymmetry(kind, tuples, g, members, order, limit, fate);
      }
    } else {
      OddAttemptSplitsAPair(kind, tuples, g, members, order, limit);
      var fate: Fate := Only(0);
      assert !Symmetric(After(kind, tuples, g, order, limit, fate));
    }
  }
}
