/**
 Grants on infrastructures: who may give and revoke them, what each operation does to the relation store when
 its requests are carried out or not, and which infrastructures can be left without an owner.
 */
module InfraGrants {
  import opened Options
  import opened Sequences
  import opened TupleStore

  /** What the storage driver knows: who and what exists, and who is an administrator. */
  datatype Directory = Directory(users: set<User>, groups: set<Group>, infras: set<Infra>, admins: set<User>)

  datatype Outcome =
    | Done
    | Denied(reason: string)
    | UnknownResource
    | UnknownSubject
    | RequestFailed
    | MultipleGrantsPanic

  function Rank(g: Grant): nat {
    match g case Reader => 0 case Writer => 1 case Owner => 2
  }

  predicate Exists(dir: Directory, s: Subject) {
    match s
    case UserSubject(u) => u in dir.users
    case GroupSubject(g) => g in dir.groups
  }

  // ---------------------------------------------------------------------------------------------
  // What the store says
  // ---------------------------------------------------------------------------------------------

  /** The groups an infrastructure is granted to, at a given level. */
  function GrantedGroups(ts: set<Tuple>, i: Infra, g: Grant): set<Group> {
    set t | t in ts && t.Granted? && t.infra == i && t.grant == g && t.subject.GroupSubject? :: t.subject.group
  }

  /** A direct grant, or for a user one that is inherited from a group. */
  predicate Effective(ts: set<Tuple>, s: Subject, i: Infra, g: Grant) {
    || Granted(i, g, s) in ts
    || (s.UserSubject? && exists group :: group in GrantedGroups(ts, i, g) && MemberOf(group, s.user) in ts)
  }

  /** The highest effective grant. */
  function GrantOf(ts: set<Tuple>, s: Subject, i: Infra): Option<Grant> {
    if Effective(ts, s, i, Owner) then Some(Owner)
    else if Effective(ts, s, i, Writer) then Some(Writer)
    else if Effective(ts, s, i, Reader) then Some(Reader)
    else None
  }

  /** The relation model lets a user share a grant who has it or a higher one. */
  predicate MayShare(ts: set<Tuple>, u: User, i: Infra, g: Grant) {
    match g
    case Reader =>
      Effective(ts, UserSubject(u), i, Reader) || Effective(ts, UserSubject(u), i, Writer) || Effective(ts, UserSubject(u), i, Owner)
    case Writer => Effective(ts, UserSubject(u), i, Writer) || Effective(ts, UserSubject(u), i, Owner)
    case Owner => Effective(ts, UserSubject(u), i, Owner)
  }

  /** The list of owners: the subjects with a direct grant and the users who inherit it from a group. */
  function ListOwners(ts: set<Tuple>, i: Infra): set<Subject> {
    DirectOwners(ts, i)
    + (set t | t in ts && t.MemberOf? && t.group in GrantedGroups(ts, i, Owner) :: UserSubject(t.user))
  }

  function DirectOwners(ts: set<Tuple>, i: Infra): set<Subject> {
    set t | t in ts && t.Granted? && t.infra == i && t.grant == Owner :: t.subject
  }

  /** The list of owners holds exactly the subjects with an effective grant of ownership. */
  lemma OwnersAreEffective(ts: set<Tuple>, i: Infra, s: Subject)
    ensures s in ListOwners(ts, i) <==> Effective(ts, s, i, Owner)
    ensures s in DirectOwners(ts, i) <==> Granted(i, Owner, s) in ts
  {
  }

  /** The holder whose direct grants count for the subject: itself, or a group a user is a member of. */
  predicate CountsFor(ts: set<Tuple>, holder: Subject, s: Subject) {
    holder == s || (holder.GroupSubject? && s.UserSubject? && MemberOf(holder.group, s.user) in ts)
  }

  /** The grant of a subject is the highest one stored for itself or, of a user, for a group they are a member of. */
  lemma GrantIsHighest(ts: set<Tuple>, s: Subject, i: Infra)
    ensures var r := GrantOf(ts, s, i);
            && (r.Some? ==> exists holder :: CountsFor(ts, holder, s) && Granted(i, r.value, holder) in ts)
            && (forall holder, g :: CountsFor(ts, holder, s) && Granted(i, g, holder) in ts ==>
                  r.Some? && Rank(g) <= Rank(r.value))
  {
    forall g
      ensures Effective(ts, s, i, g) <==> exists holder :: CountsFor(ts, holder, s) && Granted(i, g, holder) in ts
    {
      EffectiveIff(ts, s, i, g);
    }
    var r := GrantOf(ts, s, i);
    if r.Some? {
      assert Effective(ts, s, i, r.value);
    }
    forall holder, g | CountsFor(ts, holder, s) && Granted(i, g, holder) in ts
      ensures r.Some? && Rank(g) <= Rank(r.value)
    {
      assert Effective(ts, s, i, g);
      match g case Reader => case Writer => case Owner =>
    }
  }

  lemma EffectiveIff(ts: set<Tuple>, s: Subject, i: Infra, g: Grant)
    ensures Effective(ts, s, i, g) <==> exists holder :: CountsFor(ts, holder, s) && Granted(i, g, holder) in ts
  {
    if Granted(i, g, s) in ts {
      assert CountsFor(ts, s, s);
    } else if Effective(ts, s, i, g) {
      var group :| group in GrantedGroups(ts, i, g) && MemberOf(group, s.user) in ts;
      assert CountsFor(ts, GroupSubject(group), s) && Granted(i, g, GroupSubject(group)) in ts;
    }
    if holder :| CountsFor(ts, holder, s) && Granted(i, g, holder) in ts {
      if holder != s {
        var t := Granted(i, g, holder);
        assert t.infra == i && t.grant == g && t.subject.group == holder.group;
        assert holder.group in GrantedGroups(ts, i, g);
      }
    }
  }

  function DirectGrants(ts: set<Tuple>, s: Subject, i: Infra): set<Tuple> {
    set t | t in ts && t.Granted? && t.infra == i && t.subject == s
  }

  predicate MultipleDirect(ts: set<Tuple>, s: Subject, i: Infra) {
    || (Granted(i, Reader, s) in ts && Granted(i, Writer, s) in ts)
    || (Granted(i, Reader, s) in ts && Granted(i, Owner, s) in ts)
    || (Granted(i, Writer, s) in ts && Granted(i, Owner, s) in ts)
  }

  // ---------------------------------------------------------------------------------------------
  // Decisions
  // ---------------------------------------------------------------------------------------------

  /** Whether a user may give a grant; `Done` lets the change proceed. */
  function GiveDecision(dir: Directory, ts: set<Tuple>, issuer: User, s: Subject, i: Infra, g: Grant): Outcome {
    if i !in dir.infras then UnknownResource
    else if issuer !in dir.users then UnknownSubject
    else if !Exists(dir, s) then UnknownSubject
    else if s.GroupSubject? && MultipleDirect(ts, s, i) then MultipleGrantsPanic
    else
      var issuerGrant, subjectGrant := GrantOf(ts, UserSubject(issuer), i), GrantOf(ts, s, i);
      if subjectGrant == Some(Owner) && g != Owner && ListOwners(ts, i) == {s} then
        Denied("cannot demote the last owner")
      else if issuer !in dir.admins && issuerGrant.Some? && subjectGrant.Some? && UserSubject(issuer) != s
              && Rank(g) < Rank(subjectGrant.value) && Rank(issuerGrant.value) <= Rank(subjectGrant.value) then
        Denied("cannot demote user without having a higher grant")
      else if issuer in dir.admins || MayShare(ts, issuer, i, g) then Done
      else Denied("missing sharing privilege")
  }

  function RevokeDecision(dir: Directory, ts: set<Tuple>, issuer: User, s: Subject, i: Infra): Outcome {
    var subjectOwns := Effective(ts, s, i, Owner);
    if subjectOwns && i !in dir.infras then UnknownResource
    else if subjectOwns && ListOwners(ts, i) == {s} then Denied("cannot remove the last owner from infrastructure")
    else if issuer !in dir.admins && !Effective(ts, UserSubject(issuer), i, Owner) then Denied("only owners can revoke grants")
    else if issuer !in dir.admins && subjectOwns then Denied("owner cannot revoke another owner")
    else Done
  }

  function AfterRevoke(ts: set<Tuple>, s: Subject, i: Infra): set<Tuple> {
    ts - DirectGrants(ts, s, i)
  }

  function AfterGive(ts: set<Tuple>, s: Subject, i: Infra, g: Grant): set<Tuple> {
    AfterRevoke(ts, s, i) + {Granted(i, g, s)}
  }

  /** No subject has two direct grants on one infrastructure. */
  ghost predicate AtMostOne(ts: set<Tuple>) {
    forall i, s, g, g' :: Granted(i, g, s) in ts && Granted(i, g', s) in ts ==> g == g'
  }

  /** A subject with at most one direct grant: its removal is one request, its new grant another one. */
  function GiveEffect(ts: set<Tuple>, s: Subject, i: Infra, g: Grant, deleteLands: bool, writeLands: bool): set<Tuple> {
    if DirectGrants(ts, s, i) != {} && !deleteLands then ts
    else if writeLands then AfterGive(ts, s, i, g)
    else AfterRevoke(ts, s, i)
  }

  function RevokeEffect(ts: set<Tuple>, s: Subject, i: Infra, deleteLands: bool): set<Tuple> {
    if deleteLands then AfterRevoke(ts, s, i) else ts
  }

  // ---------------------------------------------------------------------------------------------
  // The operations on the store
  // ---------------------------------------------------------------------------------------------

  /** The direct grants of a subject, in the order the program looks for them. */
  function ExistingGrants(ts: set<Tuple>, s: Subject, i: Infra): seq<Tuple> {
    (if Granted(i, Reader, s) in ts then [Granted(i, Reader, s)] else [])
    + (if Granted(i, Writer, s) in ts then [Granted(i, Writer, s)] else [])
    + (if Granted(i, Owner, s) in ts then [Granted(i, Owner, s)] else [])
  }

  lemma ExistingAreDirect(ts: set<Tuple>, s: Subject, i: Infra)
    ensures Distinct(ExistingGrants(ts, s, i))
    ensures Elements(ExistingGrants(ts, s, i)) == DirectGrants(ts, s, i)
  {
    var es := ExistingGrants(ts, s, i);
    forall t
      ensures t in es <==> t in DirectGrants(ts, s, i)
    {
      if t.Granted? {
        assert t.grant == Reader || t.grant == Writer || t.grant == Owner;
      }
    }
  }

  /** At most one tuple is at most one request. */
  lemma OneTupleOneRequest(kind: Kind, ts: set<Tuple>, es: seq<Tuple>, limit: nat, fate: Fate)
    requires 0 < limit && |es| <= 1
    ensures Executed(kind, ts, Chunks(es, limit), fate, 0) == if es == [] then ts else Posted(kind, ts, es, fate(0))
    ensures AllLand(Chunks(es, limit), fate, 0) <==> es == [] || fate(0)
  {
    if es != [] {
      assert Chunks(es, limit) == [es];
    }
  }

  lemma AtMostOneExists(ts: set<Tuple>, s: Subject, i: Infra)
    requires AtMostOne(ts)
    ensures var es := ExistingGrants(ts, s, i);
            |es| <= 1 && (es == [] <==> DirectGrants(ts, s, i) == {})
  {
    var es := ExistingGrants(ts, s, i);
    ExistingAreDirect(ts, s, i);
    if es != [] {
      assert es[0] in Elements(es);
    }
  }

  method RevokeUnchecked(store: Store, s: Subject, i: Infra, limit: nat, fate: Fate) returns (r: Outcome)
    requires 0 < limit
    modifies store
    ensures r == Done || r == RequestFailed
    ensures r == Done ==> store.tuples == AfterRevoke(old(store.tuples), s, i)
    ensures AfterRevoke(old(store.tuples), s, i) <= store.tuples <= old(store.tuples)
    ensures AtMostOne(old(store.tuples)) ==>
              && store.tuples == RevokeEffect(old(store.tuples), s, i, fate(0))
              && (r == Done <==> DirectGrants(old(store.tuples), s, i) == {} || fate(0))
  {
    var deletes := ExistingGrants(store.tuples, s, i);
    ExistingAreDirect(store.tuples, s, i);
    if AtMostOne(store.tuples) {
      AtMostOneExists(store.tuples, s, i);
      OneTupleOneRequest(Delete, store.tuples, deletes, limit, fate);
    }
    var ok := store.ExecuteDeletes(deletes, limit, fate);
    r := if ok then Done else RequestFailed;
  }

  /** Removes the subject's grants, then writes the new one; the two requests can fail separately. */
  method GiveUnchecked(dir: Directory, store: Store, s: Subject, i: Infra, g: Grant, limit: nat, fate: Fate, writeLands: bool)
    returns (r: Outcome)
    requires 0 < limit
    modifies store
    ensures r == UnknownResource <==> i !in dir.infras
    ensures r == UnknownSubject <==> i in dir.infras && !Exists(dir, s)
    ensures r == UnknownResource || r == UnknownSubject ==> store.tuples == old(store.tuples)
    ensures r == Done ==> store.tuples == AfterGive(old(store.tuples), s, i, g)
    ensures r == RequestFailed ==> AfterRevoke(old(store.tuples), s, i) <= store.tuples <= old(store.tuples)
    ensures r in {Done, UnknownResource, UnknownSubject, RequestFailed}
    ensures AtMostOne(old(store.tuples)) && i in dir.infras && Exists(dir, s) ==>
              store.tuples == GiveEffect(old(store.tuples), s, i, g, fate(0), writeLands)
  {
    if i !in dir.infras {
      return UnknownResource;
    }
    if !Exists(dir, s) {
      return UnknownSubject;
    }
    r := RevokeUnchecked(store, s, i, limit, fate);
    if r != Done {
      return;
    }
    var fate': Fate := _ => writeLands;
    OneTupleOneRequest(Write, store.tuples, [Granted(i, g, s)], limit, fate');
    var ok := store.ExecuteWrites([Granted(i, g, s)], limit, fate');
    r := if ok then Done else RequestFailed;
  }

  method Give(dir: Directory, store: Store, issuer: User, s: Subject, i: Infra, g: Grant, limit: nat, fate: Fate, writeLands: bool)
    returns (r: Outcome)
    requires 0 < limit
    modifies store
    ensures var d := GiveDecision(dir, old(store.tuples), issuer, s, i, g);
            if d != Done then r == d && store.tuples == old(store.tuples)
            else if r == Done then store.tuples == AfterGive(old(store.tuples), s, i, g)
            else r == RequestFailed && AfterRevoke(old(store.tuples), s, i) <= store.tuples <= old(store.tuples)
    ensures AtMostOne(old(store.tuples)) && GiveDecision(dir, old(store.tuples), issuer, s, i, g) == Done ==>
              store.tuples == GiveEffect(old(store.tuples), s, i, g, fate(0), writeLands)
  {
    r := GiveDecision(dir, store.tuples, issuer, s, i, g);
    if r == Done {
      r := GiveUnchecked(dir, store, s, i, g, limit, fate, writeLands);
    }
  }

  method Revoke(dir: Directory, store: Store, issuer: User, s: Subject, i: Infra, limit: nat, fate: Fate) returns (r: Outcome)
    requires 0 < limit
    modifies store
    ensures var d := RevokeDecision(dir, old(store.tuples), issuer, s, i);
            if d != Done then r == d && store.tuples == old(store.tuples)
            else if r == Done then store.tuples == AfterRevoke(old(store.tuples), s, i)
            else r == RequestFailed && AfterRevoke(old(store.tuples), s, i) <= store.tuples <= old(store.tuples)
  {
    r := RevokeDecision(dir, store.tuples, issuer, s, i);
    if r == Done {
      r := RevokeUnchecked(store, s, i, limit, fate);
    }
  }

  // ---------------------------------------------------------------------------------------------
  // At most one direct grant
  // ---------------------------------------------------------------------------------------------

  /** The store after an operation, completed or interrupted, on the grants of a subject. */
  ghost predicate Changed(ts: set<Tuple>, ts': set<Tuple>) {
    exists s, i, g ::
      ts' == AfterGive(ts, s, i, g) || (AfterRevoke(ts, s, i) <= ts' && ts' <= ts)
  }

  lemma ChangeKeepsAtMostOne(ts: set<Tuple>, ts': set<Tuple>)
    requires AtMostOne(ts) && Changed(ts, ts')
    ensures AtMostOne(ts')
  {
  }

  /** Over every sequence of operations, interrupted ones included; so the panics on several grants are dead. */
  lemma {:induction false} AtMostOneOverRuns(states: seq<set<Tuple>>, s: Subject, i: Infra)
    requires states != [] && AtMostOne(states[0])
    requires forall n :: 0 < n < |states| ==> Changed(states[n - 1], states[n])
    ensures AtMostOne(states[|states| - 1]) && !MultipleDirect(states[|states| - 1], s, i)
  {
    if |states| > 1 {
      AtMostOneOverRuns(states[..|states| - 1], s, i);
      assert Changed(states[|states| - 1 - 1], states[|states| - 1]);
      ChangeKeepsAtMostOne(states[|states| - 2], states[|states| - 1]);
    }
  }

  // ---------------------------------------------------------------------------------------------
  // The rules of sharing
  // ---------------------------------------------------------------------------------------------

  lemma ShareableIsHeld(ts: set<Tuple>, u: User, i: Infra, g: Grant)
    ensures MayShare(ts, u, i, g) <==>
            GrantOf(ts, UserSubject(u), i).Some? && Rank(g) <= Rank(GrantOf(ts, UserSubject(u), i).value)
  {
  }

  /**
   Nobody but an administrator gives more than they have, and nobody but an administrator lowers someone else
   who is not strictly below them.
   */
  lemma GiverOutranks(dir: Directory, ts: set<Tuple>, issuer: User, s: Subject, i: Infra, g: Grant)
    requires GiveDecision(dir, ts, issuer, s, i, g) == Done && issuer !in dir.admins
    ensures var mine, theirs := GrantOf(ts, UserSubject(issuer), i), GrantOf(ts, s, i);
            && mine.Some? && Rank(g) <= Rank(mine.value)
            && (s != UserSubject(issuer) && theirs.Some? && Rank(g) < Rank(theirs.value) ==> Rank(theirs.value) < Rank(mine.value))
  {
  }

  /** The subject is known, and is not a group on which the program panics. */
  predicate Manageable(dir: Directory, ts: set<Tuple>, s: Subject, i: Infra) {
    i in dir.infras && Exists(dir, s) && !(s.GroupSubject? && MultipleDirect(ts, s, i))
  }

  /**
   The rules announce that an owner can promote or demote anyone but the last owner.  What an owner can do is
   exactly that, except to other owners, whom no owner can demote.
   */
  lemma OwnerGivesIff(dir: Directory, ts: set<Tuple>, issuer: User, s: Subject, i: Infra, g: Grant)
    requires issuer !in dir.admins && issuer in dir.users && Manageable(dir, ts, s, i)
    requires GrantOf(ts, UserSubject(issuer), i) == Some(Owner)
    ensures GiveDecision(dir, ts, issuer, s, i, g) == Done
            <==> !(g != Owner && GrantOf(ts, s, i) == Some(Owner)
                   && (s != UserSubject(issuer) || ListOwners(ts, i) == {s}))
  {
  }

  /** Two owners: one is not the last owner, and the other one cannot demote them. */
  lemma OwnerCannotDemoteCoOwner(i: Infra, a: User, b: User)
    requires a != b
    ensures var dir := Directory({a, b}, {}, {i}, {});
            var ts := {Granted(i, Owner, UserSubject(a)), Granted(i, Owner, UserSubject(b))};
            && GrantOf(ts, UserSubject(a), i) == GrantOf(ts, UserSubject(b), i) == Some(Owner)
            && ListOwners(ts, i) != {UserSubject(b)}
            && GiveDecision(dir, ts, a, UserSubject(b), i, Reader) == Denied("cannot demote user without having a higher grant")
  {
    var ts := {Granted(i, Owner, UserSubject(a)), Granted(i, Owner, UserSubject(b))};
    OwnersAreEffective(ts, i, UserSubject(a));
    OwnersAreEffective(ts, i, UserSubject(b));
  }

  /**
   The rules announce that an owner cannot revoke another owner.  An owner can revoke exactly the subjects
   that do not own, so not themself either.
   */
  lemma OwnerRevokesIff(dir: Directory, ts: set<Tuple>, issuer: User, s: Subject, i: Infra)
    requires issuer !in dir.admins
    ensures RevokeDecision(dir, ts, issuer, s, i) == Done
            <==> Effective(ts, UserSubject(issuer), i, Owner) && !Effective(ts, s, i, Owner)
  {
  }

  /** Of two owners, one cannot revoke their own grant. */
  lemma OwnerCannotRevokeThemself(i: Infra, a: User, b: User)
    requires a != b
    ensures var dir := Directory({a, b}, {}, {i}, {});
            var ts := {Granted(i, Owner, UserSubject(a)), Granted(i, Owner, UserSubject(b))};
            && ListOwners(ts, i) != {UserSubject(a)}
            && RevokeDecision(dir, ts, a, UserSubject(a), i) == Denied("owner cannot revoke another owner")
  {
    var ts := {Granted(i, Owner, UserSubject(a)), Granted(i, Owner, UserSubject(b))};
    OwnersAreEffective(ts, i, UserSubject(a));
    OwnersAreEffective(ts, i, UserSubject(b));
  }

  /** The issuer holds at least the grant, and is strictly above anyone else they would lower. */
  predicate Entitled(ts: set<Tuple>, issuer: User, s: Subject, i: Infra, g: Grant) {
    var mine, theirs := GrantOf(ts, UserSubject(issuer), i), GrantOf(ts, s, i);
    && mine.Some? && Rank(g) <= Rank(mine.value)
    && (s != UserSubject(issuer) && theirs.Some? && Rank(g) < Rank(theirs.value) ==> Rank(theirs.value) < Rank(mine.value))
  }

  predicate Known(dir: Directory, issuer: User, s: Subject, i: Infra) {
    i in dir.infras && issuer in dir.users && Exists(dir, s)
  }

  /**
   Who may give what to whom: everybody is known, the only listed owner is not demoted, and the issuer is an
   administrator or entitled to the change.  And exactly when each error and refusal is answered.
   */
  lemma GiveIff(dir: Directory, ts: set<Tuple>, issuer: User, s: Subject, i: Infra, g: Grant)
    ensures var d, panics, last := GiveDecision(dir, ts, issuer, s, i, g), s.GroupSubject? && MultipleDirect(ts, s, i),
                                   g != Owner && ListOwners(ts, i) == {s};
            && (d == UnknownResource <==> i !in dir.infras)
            && (d == UnknownSubject <==> i in dir.infras && !Known(dir, issuer, s, i))
            && (d == MultipleGrantsPanic <==> Known(dir, issuer, s, i) && panics)
            && (d == Denied("cannot demote the last owner") <==> Known(dir, issuer, s, i) && !panics && last)
            && (d == Done <==> Known(dir, issuer, s, i) && !panics && !last
                               && (issuer in dir.admins || Entitled(ts, issuer, s, i, g)))
  {
    ShareableIsHeld(ts, issuer, i, g);
    OwnersAreEffective(ts, i, s);
  }

  /** Which refusal somebody who is not entitled gets: of lowering someone not below them, or of giving too much. */
  lemma RefusalIff(dir: Directory, ts: set<Tuple>, issuer: User, s: Subject, i: Infra, g: Grant)
    requires Known(dir, issuer, s, i) && !(s.GroupSubject? && MultipleDirect(ts, s, i)) && issuer !in dir.admins
    requires !(g != Owner && ListOwners(ts, i) == {s}) && !Entitled(ts, issuer, s, i, g)
    ensures var mine, theirs := GrantOf(ts, UserSubject(issuer), i), GrantOf(ts, s, i);
            GiveDecision(dir, ts, issuer, s, i, g)
            == if mine.Some? && s != UserSubject(issuer) && theirs.Some? && Rank(g) < Rank(theirs.value)
                  && Rank(mine.value) <= Rank(theirs.value)
               then Denied("cannot demote user without having a higher grant")
               else Denied("missing sharing privilege")
  {
    ShareableIsHeld(ts, issuer, i, g);
    OwnersAreEffective(ts, i, s);
  }

  /** A writer may give a reader's grant to somebody who has none. */
  lemma WriterGivesReader(i: Infra, w: User, u: User)
    requires w != u
    ensures var dir, ts := Directory({w, u}, {}, {i}, {}), {Granted(i, Writer, UserSubject(w))};
            && GiveDecision(dir, ts, w, UserSubject(u), i, Reader) == Done
            && GiveDecision(dir, ts, w, UserSubject(u), i, Owner) == Denied("missing sharing privilege")
  {
    var dir, ts := Directory({w, u}, {}, {i}, {}), {Granted(i, Writer, UserSubject(w))};
    GiveIff(dir, ts, w, UserSubject(u), i, Reader);
    OwnersAreEffective(ts, i, UserSubject(u));
  }

  /** Who may revoke whom, and exactly when each error and refusal is answered. */
  lemma RevokeIff(dir: Directory, ts: set<Tuple>, issuer: User, s: Subject, i: Infra)
    ensures var d, owns, last, admin := RevokeDecision(dir, ts, issuer, s, i), Effective(ts, s, i, Owner),
                                        ListOwners(ts, i) == {s}, issuer in dir.admins;
            var issuerOwns := Effective(ts, UserSubject(issuer), i, Owner);
            && (d == UnknownResource <==> owns && i !in dir.infras)
            && (d == Denied("cannot remove the last owner from infrastructure") <==> i in dir.infras && last)
            && (d == Denied("only owners can revoke grants") <==>
                  !(owns && i !in dir.infras) && !last && !admin && !issuerOwns)
            && (d == Denied("owner cannot revoke another owner") <==>
                  i in dir.infras && owns && !last && !admin && issuerOwns)
            && (d == Done <==> !(owns && i !in dir.infras) && !last && (admin || (issuerOwns && !owns)))
  {
    OwnersAreEffective(ts, i, s);
  }

  /** Who may demote an owner: an administrator, or that owner themself, when the list shows someone else. */
  lemma OwnerIsDemotedIff(dir: Directory, ts: set<Tuple>, issuer: User, s: Subject, i: Infra, g: Grant)
    requires g != Owner && Effective(ts, s, i, Owner)
    ensures GiveDecision(dir, ts, issuer, s, i, g) == Done
            <==> Manageable(dir, ts, s, i) && issuer in dir.users && ListOwners(ts, i) != {s}
                 && (issuer in dir.admins || s == UserSubject(issuer))
  {
  }

  /** Who may revoke an owner: an administrator, when the list shows someone else. */
  lemma OwnerIsRevokedIff(dir: Directory, ts: set<Tuple>, issuer: User, s: Subject, i: Infra)
    requires Effective(ts, s, i, Owner)
    ensures RevokeDecision(dir, ts, issuer, s, i) == Done
            <==> i in dir.infras && issuer in dir.admins && ListOwners(ts, i) != {s}
  {
  }

  // ---------------------------------------------------------------------------------------------
  // The last owner
  // ---------------------------------------------------------------------------------------------

  ghost predicate HasMember(ts: set<Tuple>, g: Group) {
    exists u :: MemberOf(g, u) in ts
  }

  ghost predicate HasOwner(ts: set<Tuple>, i: Infra) {
    DirectOwners(ts, i) != {}
  }

  lemma RevokedOwners(ts: set<Tuple>, s: Subject, i: Infra, i': Infra)
    ensures DirectOwners(AfterRevoke(ts, s, i), i') == if i' == i then DirectOwners(ts, i) - {s} else DirectOwners(ts, i')
  {
  }

  lemma GivenOwners(ts: set<Tuple>, s: Subject, i: Infra, g: Grant, i': Infra)
    ensures DirectOwners(AfterGive(ts, s, i, g), i')
         == DirectOwners(AfterRevoke(ts, s, i), i') + if i' == i && g == Owner then {s} else {}
  {
  }

  /** A user who is the only direct owner is the only listed one. */
  lemma SoleUserIsListedAlone(ts: set<Tuple>, i: Infra, u: User)
    requires DirectOwners(ts, i) == {UserSubject(u)}
    ensures ListOwners(ts, i) == {UserSubject(u)}
  {
    forall t | t in ts && t.MemberOf?
      ensures t.group !in GrantedGroups(ts, i, Owner)
    {
      OwnersAreEffective(ts, i, GroupSubject(t.group));
    }
  }

  /** A group that is the only direct owner is listed alone unless it has a member. */
  lemma SoleGroupIsListedWithMembers(ts: set<Tuple>, i: Infra, g: Group)
    requires DirectOwners(ts, i) == {GroupSubject(g)}
    ensures ListOwners(ts, i) == {GroupSubject(g)} <==> !HasMember(ts, g)
  {
    OwnersAreEffective(ts, i, GroupSubject(g));
    assert GrantedGroups(ts, i, Owner) == {g} by {
      forall g'
        ensures g' in GrantedGroups(ts, i, Owner) <==> g' == g
      {
        OwnersAreEffective(ts, i, GroupSubject(g'));
        var t := Granted(i, Owner, GroupSubject(g'));
        assert t.infra == i && t.grant == Owner && t.subject.group == g';
      }
    }
    forall u
      ensures MemberOf(g, u) in ts ==> UserSubject(u) in ListOwners(ts, i)
    {
      var t := MemberOf(g, u);
      assert t.group == g && t.user == u;
    }
  }

  /**
   A completed change of grant leaves an owned infrastructure without owner exactly when it lowers the one
   subject that owns it and that subject is a group; the guard only ever lets this happen to a group that has
   a member, since its members are counted as owners too.
   */
  lemma GiveLosesOwnerIffSoleGroup(dir: Directory, ts: set<Tuple>, issuer: User, s: Subject, i: Infra, g: Grant)
    requires GiveDecision(dir, ts, issuer, s, i, g) == Done && HasOwner(ts, i)
    ensures !HasOwner(AfterGive(ts, s, i, g), i) <==> g != Owner && DirectOwners(ts, i) == {s} && s.GroupSubject?
    ensures !HasOwner(AfterGive(ts, s, i, g), i) ==> HasMember(ts, s.group)
  {
    RevokedOwners(ts, s, i, i);
    GivenOwners(ts, s, i, g, i);
    if g != Owner && DirectOwners(ts, i) == {s} {
      OwnersAreEffective(ts, i, s);
      if s.UserSubject? {
        SoleUserIsListedAlone(ts, i, s.user);
      } else {
        SoleGroupIsListedWithMembers(ts, i, s.group);
      }
    }
  }

  lemma RevokeLosesOwnerIffSoleGroup(dir: Directory, ts: set<Tuple>, issuer: User, s: Subject, i: Infra)
    requires RevokeDecision(dir, ts, issuer, s, i) == Done && HasOwner(ts, i)
    ensures !HasOwner(AfterRevoke(ts, s, i), i) <==> DirectOwners(ts, i) == {s} && s.GroupSubject?
    ensures !HasOwner(AfterRevoke(ts, s, i), i) ==> HasMember(ts, s.group)
  {
    RevokedOwners(ts, s, i, i);
    if DirectOwners(ts, i) == {s} {
      OwnersAreEffective(ts, i, s);
      if s.UserSubject? {
        SoleUserIsListedAlone(ts, i, s.user);
      } else {
        SoleGroupIsListedWithMembers(ts, i, s.group);
      }
    }
  }

  /** An administrator can revoke the one group that owns an infrastructure: nobody is left owning it. */
  lemma LastOwnerGroupCanBeRevoked(i: Infra, g: Group, member: User, admin: User)
    ensures var dir := Directory({member, admin}, {g}, {i}, {admin});
            var ts := {Granted(i, Owner, GroupSubject(g)), MemberOf(g, member), GroupOf(member, g)};
            && HasOwner(ts, i)
            && RevokeDecision(dir, ts, admin, GroupSubject(g), i) == Done
            && !HasOwner(AfterRevoke(ts, GroupSubject(g), i), i)
  {
    var ts := {Granted(i, Owner, GroupSubject(g)), MemberOf(g, member), GroupOf(member, g)};
    OwnersAreEffective(ts, i, GroupSubject(g));
    assert DirectOwners(ts, i) == {GroupSubject(g)};
    SoleGroupIsListedWithMembers(ts, i, g);
    RevokedOwners(ts, GroupSubject(g), i, i);
  }

  /**
   Giving a grant, whichever of its two requests are carried out, leaves the infrastructure without direct
   owner exactly when the only one has its grant deleted and ownership is not written again: giving ownership
   to the only owner once more can lose it.
   */
  lemma InterruptedGiveLosesOwnerIff(ts: set<Tuple>, s: Subject, i: Infra, g: Grant, deleteLands: bool, writeLands: bool)
    requires HasOwner(ts, i)
    ensures !HasOwner(GiveEffect(ts, s, i, g, deleteLands, writeLands), i)
            <==> DirectOwners(ts, i) == {s} && deleteLands && !(writeLands && g == Owner)
  {
    RevokedOwners(ts, s, i, i);
    GivenOwners(ts, s, i, g, i);
    if DirectOwners(ts, i) == {s} {
      OwnersAreEffective(ts, i, s);
      assert Granted(i, Owner, s) in DirectGrants(ts, s, i);
    }
  }

  // ---------------------------------------------------------------------------------------------
  // Runs of completed operations
  // ---------------------------------------------------------------------------------------------

  datatype Operation =
    | GiveOp(issuer: User, subject: Subject, infra: Infra, grant: Grant)
    | RevokeOp(issuer: User, subject: Subject, infra: Infra)

  function Complete(dir: Directory, ts: set<Tuple>, op: Operation): set<Tuple> {
    match op
    case GiveOp(issuer, s, i, g) => if GiveDecision(dir, ts, issuer, s, i, g) == Done then AfterGive(ts, s, i, g) else ts
    case RevokeOp(issuer, s, i) => if RevokeDecision(dir, ts, issuer, s, i) == Done then AfterRevoke(ts, s, i) else ts
  }

  function CompleteAll(dir: Directory, ts: set<Tuple>, ops: seq<Operation>): set<Tuple> {
    if ops == [] then ts else Complete(dir, CompleteAll(dir, ts, ops[..|ops| - 1]), ops[|ops| - 1])
  }

  /**
   An administrator takes ownership away from a group that is the only direct owner and has a member.  To
   demote it, the administrator and the group must also be known.
   */
  ghost predicate DropsSoleGroup(dir: Directory, ts: set<Tuple>, op: Operation, i: Infra) {
    && op.infra == i && i in dir.infras && op.issuer in dir.admins
    && op.subject.GroupSubject? && DirectOwners(ts, i) == {op.subject} && HasMember(ts, op.subject.group)
    && (op.GiveOp? ==> op.grant != Owner && op.issuer in dir.users && Manageable(dir, ts, op.subject, i))
  }

  lemma CompleteLosesOwnerIff(dir: Directory, ts: set<Tuple>, op: Operation, i: Infra)
    requires HasOwner(ts, i)
    ensures !HasOwner(Complete(dir, ts, op), i) <==> DropsSoleGroup(dir, ts, op, i)
  {
    var s := op.subject;
    RevokedOwners(ts, s, op.infra, i);
    if op.GiveOp? {
      GivenOwners(ts, s, op.infra, op.grant, i);
    }
    if op.infra == i && DirectOwners(ts, i) == {s} {
      OwnersAreEffective(ts, i, s);
      OwnerIsRevokedIff(dir, ts, op.issuer, s, i);
      if op.GiveOp? && op.grant != Owner {
        OwnerIsDemotedIff(dir, ts, op.issuer, s, i, op.grant);
      }
      if s.UserSubject? {
        SoleUserIsListedAlone(ts, i, s.user);
      } else {
        SoleGroupIsListedWithMembers(ts, i, s.group);
      }
    }
  }

  ghost predicate AlwaysOwned(dir: Directory, ts: set<Tuple>, ops: seq<Operation>, i: Infra) {
    HasOwner(CompleteAll(dir, ts, ops), i) && (ops == [] || AlwaysOwned(dir, ts, ops[..|ops| - 1], i))
  }

  ghost predicate NeverDropsSoleGroup(dir: Directory, ts: set<Tuple>, ops: seq<Operation>, i: Infra) {
    ops == [] ||
    (NeverDropsSoleGroup(dir, ts, ops[..|ops| - 1], i)
     && !DropsSoleGroup(dir, CompleteAll(dir, ts, ops[..|ops| - 1]), ops[|ops| - 1], i))
  }

  /** Over every run, an owned infrastructure keeps an owner exactly as long as no sole owner group is dropped. */
  lemma {:induction false} OwnedStaysOwnedIff(dir: Directory, ts: set<Tuple>, ops: seq<Operation>, i: Infra)
    requires HasOwner(ts, i)
    ensures AlwaysOwned(dir, ts, ops, i) <==> NeverDropsSoleGroup(dir, ts, ops, i)
  {
    if ops != [] {
      var before := CompleteAll(dir, ts, ops[..|ops| - 1]);
      OwnedStaysOwnedIff(dir, ts, ops[..|ops| - 1], i);
      if HasOwner(before, i) {
        CompleteLosesOwnerIff(dir, before, ops[|ops| - 1], i);
      } else {
        assert !AlwaysOwned(dir, ts, ops[..|ops| - 1], i);
      }
    }
  }

  ghost predicate UsersOwn(ts: set<Tuple>) {
    forall i, g :: Granted(i, Owner, GroupSubject(g)) !in ts
  }

  ghost predicate OwnershipToUsers(op: Operation) {
    op.GiveOp? && op.grant == Owner ==> op.subject.UserSubject?
  }

  lemma CompleteKeepsUsersOwn(dir: Directory, ts: set<Tuple>, op: Operation)
    requires UsersOwn(ts) && OwnershipToUsers(op)
    ensures UsersOwn(Complete(dir, ts, op))
  {
  }

  /** So when only users own, an infrastructure that has an owner keeps one, whatever administrators do. */
  lemma {:induction false} OwnedStaysOwned(dir: Directory, ts: set<Tuple>, ops: seq<Operation>, i: Infra)
    requires UsersOwn(ts) && HasOwner(ts, i) && forall n :: 0 <= n < |ops| ==> OwnershipToUsers(ops[n])
    ensures UsersOwn(CompleteAll(dir, ts, ops)) && HasOwner(CompleteAll(dir, ts, ops), i)
  {
    if ops != [] {
      var before := CompleteAll(dir, ts, ops[..|ops| - 1]);
      OwnedStaysOwned(dir, ts, ops[..|ops| - 1], i);
      CompleteLosesOwnerIff(dir, before, ops[|ops| - 1], i);
      OwnersAreEffective(before, i, ops[|ops| - 1].subject);
      CompleteKeepsUsersOwn(dir, before, ops[|ops| - 1]);
    }
  }
  // ---------------------------------------------------------------------------------------------
  // Users who own
  // ---------------------------------------------------------------------------------------------

  /** Some user owns the infrastructure, directly or through a group: a group without members does not count. */
  ghost predicate OwnedByUser(ts: set<Tuple>, i: Infra) {
    exists u :: Effective(ts, UserSubject(u), i, Owner)
  }

  /** A direct owner that makes some user an owner. */
  ghost predicate Carries(ts: set<Tuple>, s: Subject) {
    s.UserSubject? || HasMember(ts, s.group)
  }

  /** No other direct owner makes a user an owner. */
  ghost predicate RestsOn(ts: set<Tuple>, i: Infra, s: Subject) {
    forall d :: d in DirectOwners(ts, i) && Carries(ts, d) ==> d == s
  }

  lemma OwnedByUserIff(ts: set<Tuple>, i: Infra)
    ensures OwnedByUser(ts, i) <==> exists d :: d in DirectOwners(ts, i) && Carries(ts, d)
  {
    if OwnedByUser(ts, i) {
      var u :| Effective(ts, UserSubject(u), i, Owner);
      OwnersAreEffective(ts, i, UserSubject(u));
      if Granted(i, Owner, UserSubject(u)) !in ts {
        var group :| group in GrantedGroups(ts, i, Owner) && MemberOf(group, u) in ts;
        OwnersAreEffective(ts, i, GroupSubject(group));
      }
    }
    if d :| d in DirectOwners(ts, i) && Carries(ts, d) {
      OwnersAreEffective(ts, i, d);
      if d.UserSubject? {
        assert Effective(ts, d, i, Owner);
      } else {
        var u :| MemberOf(d.group, u) in ts;
        var t := Granted(i, Owner, d);
        assert t.infra == i && t.grant == Owner && t.subject.group == d.group;
        assert Effective(ts, UserSubject(u), i, Owner);
      }
    }
  }

  /**
   The ownership of every user rests on the subject, the list of owners shows someone else, and the issuer may
   demote or revoke an owner.  That someone else is a member of the subject, when the subject is a group, or an
   owning group without members.
   */
  ghost predicate DropsLastUser(dir: Directory, ts: set<Tuple>, op: Operation, i: Infra) {
    && op.infra == i && i in dir.infras && RestsOn(ts, i, op.subject) && ListOwners(ts, i) != {op.subject}
    && match op
       case GiveOp(issuer, s, _, g) =>
         g != Owner && Manageable(dir, ts, s, i) && issuer in dir.users && (issuer in dir.admins || s == UserSubject(issuer))
       case RevokeOp(issuer, _, _) => issuer in dir.admins
  }

  lemma CompleteLosesUserIff(dir: Directory, ts: set<Tuple>, op: Operation, i: Infra)
    requires OwnedByUser(ts, i)
    ensures !OwnedByUser(Complete(dir, ts, op), i) <==> DropsLastUser(dir, ts, op, i)
  {
    var s, ts' := op.subject, Complete(dir, ts, op);
    OwnedByUserIff(ts, i);
    OwnedByUserIff(ts', i);
    RevokedOwners(ts, s, op.infra, i);
    if op.GiveOp? {
      GivenOwners(ts, s, op.infra, op.grant, i);
    }
    assert forall d :: Carries(ts', d) <==> Carries(ts, d);
    if op.infra == i && RestsOn(ts, i, s) {
      OwnersAreEffective(ts, i, s);
      OwnerIsRevokedIff(dir, ts, op.issuer, s, i);
      if op.GiveOp? && op.grant != Owner {
        OwnerIsDemotedIff(dir, ts, op.issuer, s, i, op.grant);
      }
    }
  }

  ghost predicate AlwaysOwnedByUser(dir: Directory, ts: set<Tuple>, ops: seq<Operation>, i: Infra) {
    OwnedByUser(CompleteAll(dir, ts, ops), i) && (ops == [] || AlwaysOwnedByUser(dir, ts, ops[..|ops| - 1], i))
  }

  ghost predicate NeverDropsLastUser(dir: Directory, ts: set<Tuple>, ops: seq<Operation>, i: Infra) {
    ops == [] ||
    (NeverDropsLastUser(dir, ts, ops[..|ops| - 1], i)
     && !DropsLastUser(dir, CompleteAll(dir, ts, ops[..|ops| - 1]), ops[|ops| - 1], i))
  }

  /** Over every run, some user keeps owning exactly as long as no operation drops the last one. */
  lemma {:induction false} UserStaysOwnerIff(dir: Directory, ts: set<Tuple>, ops: seq<Operation>, i: Infra)
    requires OwnedByUser(ts, i)
    ensures AlwaysOwnedByUser(dir, ts, ops, i) <==> NeverDropsLastUser(dir, ts, ops, i)
  {
    if ops != [] {
      var before := CompleteAll(dir, ts, ops[..|ops| - 1]);
      UserStaysOwnerIff(dir, ts, ops[..|ops| - 1], i);
      if OwnedByUser(before, i) {
        CompleteLosesUserIff(dir, before, ops[|ops| - 1], i);
      } else {
        assert !AlwaysOwnedByUser(dir, ts, ops[..|ops| - 1], i);
      }
    }
  }

  /** Beside an owning group without members, an administrator can revoke the only user who owns. */
  lemma EmptyGroupHidesLastUser(i: Infra, u: User, g: Group, admin: User)
    ensures var dir := Directory({u, admin}, {g}, {i}, {admin});
            var ts := {Granted(i, Owner, UserSubject(u)), Granted(i, Owner, GroupSubject(g))};
            && OwnedByUser(ts, i)
            && RevokeDecision(dir, ts, admin, UserSubject(u), i) == Done
            && !OwnedByUser(AfterRevoke(ts, UserSubject(u), i), i)
  {
    var dir := Directory({u, admin}, {g}, {i}, {admin});
    var ts := {Granted(i, Owner, UserSubject(u)), Granted(i, Owner, GroupSubject(g))};
    OwnersAreEffective(ts, i, UserSubject(u));
    OwnersAreEffective(ts, i, GroupSubject(g));
    CompleteLosesUserIff(dir, ts, RevokeOp(admin, UserSubject(u), i), i);
  }
}
