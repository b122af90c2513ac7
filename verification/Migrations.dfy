/**
 Migrations of the authorization model: a run moves the authorization store to a target model and records it
 in a second store, by requests any of which can be the last one carried out.
 */
module Migrations {
  import opened Options
  import Decimals

  datatype Migration = Migration(number: nat, modelHash: string)

  datatype Target = Latest | Named(name: string)

  /** One entry of the ordered list of migrations. */
  datatype Known = Known(name: string, model: string)

  /** The migration tuples recorded, and the model the authorization store was last given. */
  datatype Stores = Stores(applied: set<Migration>, model: Option<string>)

  datatype Outcome = Applied | InvalidName(name: string) | Inconsistent | Interrupted

  const MAX_NUMBER: nat := 0xFFFF_FFFF_FFFF_FFFF

  // ---------------------------------------------------------------------------------------------
  // Migration ids
  // ---------------------------------------------------------------------------------------------

  function PrintId(m: Migration): string {
    Decimals.Print(m.number) + "-" + m.modelHash
  }

  /** The position of the first dash. */
  function FirstDash(s: string): (r: Option<nat>)
    ensures r.Some? ==> r.value < |s| && s[r.value] == '-' && forall i :: 0 <= i < r.value ==> s[i] != '-'
    ensures r.None? ==> '-' !in s
  {
    if s == [] then None
    else if s[0] == '-' then Some(0)
    else
      var r := FirstDash(s[1..]);
      assert r.Some? ==> forall i :: 0 < i < r.value + 1 ==> s[i] == s[1..][i - 1];
      if r.Some? then Some(r.value + 1) else None
  }

  function ParseId(s: string): Option<Migration> {
    var dash := FirstDash(s);
    if dash.None? then None else
      var number := Decimals.Parse(s[..dash.value], MAX_NUMBER);
      if number.None? then None else Some(Migration(number.value, s[dash.value + 1..]))
  }

  /** A migration reads back from its id, whatever its hash, exactly when its number fits a machine word. */
  lemma IdRoundTrip(m: Migration)
    ensures ParseId(PrintId(m)) == if m.number <= MAX_NUMBER then Some(m) else None
  {
    var number, s := Decimals.Print(m.number), PrintId(m);
    Decimals.PrintIsDigits(m.number);
    assert s[|number|] == '-';
    assert forall i :: 0 <= i < |number| ==> s[i] == number[i];
    assert FirstDash(s) == Some(|number|);
    assert s[..|number|] == number && s[|number| + 1..] == m.modelHash;
    Decimals.ParsePrint(m.number, MAX_NUMBER);
  }

  /** What is refused: a text without a dash, and one that has no number that fits before its first dash. */
  lemma IdIsRefusedIff(s: string)
    ensures ParseId(s).None? <==>
            forall n :: 0 <= n < |s| && s[n] == '-' && '-' !in s[..n] ==>
              Decimals.Parse(s[..n], 0xFFFF_FFFF_FFFF_FFFF).None?
  {
    var dash := FirstDash(s);
    assert forall n :: 0 <= n < |s| && s[n] == '-' && '-' !in s[..n] ==> dash == Some(n);
    assert dash.Some? ==> '-' !in s[..dash.value];
  }

  // ---------------------------------------------------------------------------------------------
  // A run
  // ---------------------------------------------------------------------------------------------

  function IndexOfName(known: seq<Known>, name: string): (r: Option<nat>)
    ensures r.Some? ==> r.value < |known| && known[r.value].name == name
    ensures r.Some? ==> forall i :: 0 <= i < r.value ==> known[i].name != name
    ensures r.None? ==> forall i :: 0 <= i < |known| ==> known[i].name != name
  {
    if known == [] then None
    else if known[0].name == name then Some(0)
    else
      var r := IndexOfName(known[1..], name);
      if r.Some? then Some(r.value + 1) else None
  }

  /** The number of the target; the list of migrations is never empty. */
  function TargetIndex(known: seq<Known>, target: Target): (r: Option<nat>)
    requires known != []
    ensures r.Some? ==> r.value < |known|
  {
    match target
    case Latest => Some(|known| - 1)
    case Named(name) => IndexOfName(known, name)
  }

  function MigrationOf(known: seq<Known>, index: nat, hash: string -> string): Migration
    requires index < |known|
  {
    Migration(index, hash(known[index].model))
  }

  class MigrationStores {
    var applied: set<Migration>
    var model: Option<string>

    function Contents(): Stores
      reads this
    {
      Stores(applied, model)
    }

    /**
     One run, of which the first `requests` requests are carried out: updating the model of the migrations
     store, listing its tuples, deleting the old tuple, writing the authorization model, writing the tuple.
     */
    method RunMigrations(known: seq<Known>, hash: string -> string, target: Target, requests: nat) returns (r: Outcome)
      requires known != []
      modifies this
      ensures (Contents(), r) == Attempt(known, hash, old(Contents()), target, requests)
    {
      var index := TargetIndex(known, target);
      if index.None? {
        return InvalidName(target.name);
      }
      var wanted := MigrationOf(known, index.value, hash);
      if requests < 2 {
        return Interrupted;
      }
      var left := requests - 2;
      if |applied| == 1 {
        var current :| current in applied;
        if current == wanted {
          OnlyOne(applied, wanted);
          return Applied;
        }
        if left == 0 {
          OnlyOne(applied, current);
          return Interrupted;
        }
        OnlyOne(applied, current);
        applied := applied - {current};
        left := left - 1;
      } else if |applied| >= 2 {
        return Inconsistent;
      }
      assert applied == {};
      if left == 0 {
        return Interrupted;
      }
      model := Some(known[index.value].model);
      if left == 1 {
        return Interrupted;
      }
      applied := applied + {wanted};
      r := Applied;
    }
  }

  lemma OnlyOne(s: set<Migration>, m: Migration)
    requires |s| == 1 && m in s
    ensures s == {m}
  {
    assert |s - {m}| == 0;
  }

  /** What a run leaves in the two stores. */
  function Attempt(known: seq<Known>, hash: string -> string, s: Stores, target: Target, requests: nat): (Stores, Outcome)
    requires known != []
  {
    var index := TargetIndex(known, target);
    if index.None? then (s, InvalidName(if target.Named? then target.name else "")) else
      var wanted := MigrationOf(known, index.value, hash);
      if requests < 2 then (s, Interrupted)
      else if |s.applied| >= 2 then (s, Inconsistent)
      else if s.applied == {wanted} then (s, Applied)
      else
        // the old tuple, when there is one, takes a request to delete
        var left := if s.applied == {} then requests - 2 else requests - 3;
        if left < 0 then (s, Interrupted)
        else if left == 0 then (Stores({}, s.model), Interrupted)
        else if left == 1 then (Stores({}, Some(known[index.value].model)), Interrupted)
        else (Stores({wanted}, Some(known[index.value].model)), Applied)
  }

  // ---------------------------------------------------------------------------------------------
  // Safety over runs
  // ---------------------------------------------------------------------------------------------

  /** At most one migration is recorded, and the authorization store then has the model it names. */
  ghost predicate InStep(hash: string -> string, s: Stores) {
    && |s.applied| <= 1
    && forall m :: m in s.applied ==> s.model.Some? && hash(s.model.value) == m.modelHash
  }

  lemma AttemptKeepsInStep(known: seq<Known>, hash: string -> string, s: Stores, target: Target, requests: nat)
    requires known != [] && InStep(hash, s)
    ensures InStep(hash, Attempt(known, hash, s, target, requests).0)
    ensures Attempt(known, hash, s, target, requests).1 != Inconsistent
  {
  }

  /** A completed run leaves exactly the target recorded, and the model it names in place. */
  lemma CompletedRunReachesTarget(known: seq<Known>, hash: string -> string, s: Stores, target: Target, requests: nat)
    requires known != [] && InStep(hash, s) && Attempt(known, hash, s, target, requests).1 == Applied
    ensures var s', index := Attempt(known, hash, s, target, requests).0, TargetIndex(known, target);
            && index.Some?
            && s'.applied == {MigrationOf(known, index.value, hash)}
            && s'.model.Some? && hash(s'.model.value) == hash(known[index.value].model)
  {
  }

  /** The latest migration is the last of the list; a named one is the one of that name. */
  lemma CompletedRunRecords(known: seq<Known>, hash: string -> string, s: Stores, target: Target, requests: nat)
    requires known != [] && InStep(hash, s) && Attempt(known, hash, s, target, requests).1 == Applied
    ensures var s' := Attempt(known, hash, s, target, requests).0;
            exists n :: 0 <= n < |known| && s'.applied == {Migration(n, hash(known[n].model))}
                        && (target.Latest? ==> n == |known| - 1) && (target.Named? ==> known[n].name == target.name)
  {
    CompletedRunReachesTarget(known, hash, s, target, requests);
    var n := TargetIndex(known, target).value;
    assert 0 <= n < |known| && MigrationOf(known, n, hash) == Migration(n, hash(known[n].model));
  }

  /** The target is already recorded. */
  predicate Recorded(known: seq<Known>, hash: string -> string, s: Stores, target: Target)
    requires known != []
  {
    var index := TargetIndex(known, target);
    index.Some? && s.applied == {MigrationOf(known, index.value, hash)}
  }

  /**
   How a run ends: an unknown name and a store with several records change nothing; otherwise it completes exactly
   when its requests are carried out, of which it needs two when the target is recorded, five when another
   migration is, four when none is.
   */
  lemma RunEndsIff(known: seq<Known>, hash: string -> string, s: Stores, target: Target, requests: nat)
    requires known != []
    ensures var (s', r) := Attempt(known, hash, s, target, requests);
            var unknown := target.Named? && forall n :: 0 <= n < |known| ==> known[n].name != target.name;
            && (r.InvalidName? <==> unknown)
            && (r == Inconsistent <==> !unknown && 2 <= requests && 2 <= |s.applied|)
            && (r.InvalidName? || r == Inconsistent ==> s' == s)
            && (r == Applied <==> !unknown && |s.applied| <= 1
                                  && (if Recorded(known, hash, s, target) then 2 else if s.applied == {} then 4 else 5) <= requests)
  {
    if target.Named? && TargetIndex(known, target).Some? {
      assert known[TargetIndex(known, target).value].name == target.name;
    }
  }

  /** Running again right after changes neither store, however far the second run gets. */
  lemma RerunChangesNothing(known: seq<Known>, hash: string -> string, s: Stores, target: Target, requests: nat, again: nat)
    requires known != [] && InStep(hash, s) && Attempt(known, hash, s, target, requests).1 == Applied
    ensures var s' := Attempt(known, hash, s, target, requests).0;
            Attempt(known, hash, s', target, again).0 == s'
  {
  }

  datatype RunRequest = RunRequest(target: Target, requests: nat)

  function Attempts(known: seq<Known>, hash: string -> string, s: Stores, runs: seq<RunRequest>): Stores
    requires known != []
  {
    if runs == [] then s else
      var last := runs[|runs| - 1];
      Attempt(known, hash, Attempts(known, hash, s, runs[..|runs| - 1]), last.target, last.requests).0
  }

  /**
   Over any sequence of runs, each stopped after any of its requests, the record never contradicts the
   authorization store; and a run allowed to finish after them always reaches its target.
   */
  lemma {:induction false} CrashSafety(known: seq<Known>, hash: string -> string, s: Stores, runs: seq<RunRequest>, target: Target)
    requires known != [] && InStep(hash, s)
    ensures InStep(hash, Attempts(known, hash, s, runs))
    ensures TargetIndex(known, target).Some? ==> Attempt(known, hash, Attempts(known, hash, s, runs), target, 5).1 == Applied
  {
    if runs != [] {
      var last := runs[|runs| - 1];
      CrashSafety(known, hash, s, runs[..|runs| - 1], target);
      AttemptKeepsInStep(known, hash, Attempts(known, hash, s, runs[..|runs| - 1]), last.target, last.requests);
    }
  }
}
