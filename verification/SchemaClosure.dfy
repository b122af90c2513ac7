/** The schemas an interface needs: the named ones and, transitively, every schema they refer to. */
module SchemaClosure {
  datatype Name = Name(text: string)

  /** The names each known schema refers to, in the order they are met. */
  type References = map<Name, seq<Name>>

  ghost predicate Refers(refs: References, a: Name, b: Name) {
    a in refs && b in refs[a]
  }

  /** Nothing a member refers to is missing. Names of unknown schemas refer to nothing. */
  ghost predicate Closed(refs: References, names: set<Name>) {
    forall a, b :: a in names && Refers(refs, a, b) ==> b in names
  }

  ghost predicate Chain(refs: References, p: seq<Name>) {
    p != [] && forall i :: 0 < i < |p| ==> Refers(refs, p[i - 1], p[i])
  }

  /** A chain of references leads from an initial name to this one. */
  ghost predicate Needed(refs: References, initial: seq<Name>, n: Name) {
    exists p :: Chain(refs, p) && p[0] in initial && p[|p| - 1] == n
  }

  lemma NeededStep(refs: References, initial: seq<Name>, a: Name, b: Name)
    requires Needed(refs, initial, a) && Refers(refs, a, b)
    ensures Needed(refs, initial, b)
  {
    var p :| Chain(refs, p) && p[0] in initial && p[|p| - 1] == a;
    var q := p + [b];
    assert Chain(refs, q) && q[0] in initial && q[|q| - 1] == b;
  }

  lemma NeededStart(refs: References, initial: seq<Name>, n: Name)
    requires n in initial
    ensures Needed(refs, initial, n)
  {
    var p := [n];
    assert Chain(refs, p) && p[0] in initial && p[|p| - 1] == n;
  }

  /** A closed set holding the start of a chain holds all of it. */
  lemma {:induction false} ClosedHoldsChain(refs: References, names: set<Name>, p: seq<Name>)
    requires Closed(refs, names) && Chain(refs, p) && p[0] in names
    ensures p[|p| - 1] in names
    decreases |p|
  {
    if |p| > 1 {
      ClosedHoldsChain(refs, names, p[..|p| - 1]);
      assert Refers(refs, p[|p| - 2], p[|p| - 1]);
    }
  }

  lemma NeededIsLeast(refs: References, initial: seq<Name>, names: set<Name>, n: Name)
    requires Closed(refs, names) && (forall i :: i in initial ==> i in names) && Needed(refs, initial, n)
    ensures n in names
  {
    var p :| Chain(refs, p) && p[0] in initial && p[|p| - 1] == n;
    ClosedHoldsChain(refs, names, p);
  }

  /** Every name that can occur: it bounds the work. */
  ghost function Mentioned(refs: References, initial: seq<Name>): set<Name> {
    (set n | n in initial) + (set a, n | a in refs && n in refs[a] :: n)
  }

  /** Processed names refer only to found ones. */
  ghost predicate Processed(refs: References, found: set<Name>, todo: seq<Name>) {
    forall a, b :: a in found && a !in todo && Refers(refs, a, b) ==> b in found
  }

  ghost predicate AllNeeded(refs: References, initial: seq<Name>, found: set<Name>) {
    forall n :: n in found ==> Needed(refs, initial, n)
  }

  ghost predicate Growing(refs: References, initial: seq<Name>, found: set<Name>, todo: seq<Name>) {
    && found <= Mentioned(refs, initial)
    && AllNeeded(refs, initial, found)
    && (forall n :: n in initial ==> n in found)
    && (forall n :: n in todo ==> n in found)
  }

  ghost predicate Kept(todo: seq<Name>, todo': seq<Name>) {
    forall n :: n in todo ==> n in todo'
  }

  /** Adds the references of one schema that were not known yet, and queues them. */
  method AddReferences(refs: References, ghost initial: seq<Name>, current: Name, found: set<Name>, todo: seq<Name>)
      returns (found': set<Name>, todo': seq<Name>)
    requires Growing(refs, initial, found, todo) && current in found && current in refs
    ensures Growing(refs, initial, found', todo')
    ensures found <= found' && Kept(todo, todo') && (found' == found ==> todo' == todo)
    ensures forall n :: n in found' <==> n in found || n in refs[current]
    ensures forall n :: n in found' && n !in found ==> n in todo'
  {
    found', todo' := found, todo;
    for i := 0 to |refs[current]|
      invariant Growing(refs, initial, found', todo')
      invariant found <= found' && Kept(todo, todo') && (found' == found ==> todo' == todo)
      invariant forall n :: n in found' <==> n in found || n in refs[current][..i]
      invariant forall n :: n in found' && n !in found ==> n in todo'
    {
      var ref := refs[current][i];
      assert refs[current][..i + 1] == refs[current][..i] + [ref];
      if ref !in found' {
        assert Refers(refs, current, ref);
        NeededStep(refs, initial, current, ref);
        found', todo' := found' + {ref}, todo' + [ref];
      }
    }
    assert refs[current][..|refs[current]|] == refs[current];
  }

  /** Processing the first queued name keeps the processed ones complete. */
  lemma ProcessedStep(refs: References, found: set<Name>, todo: seq<Name>, found': set<Name>, todo': seq<Name>)
    requires todo != [] && Processed(refs, found, todo) && found <= found' && Kept(todo[1..], todo')
    requires forall b :: Refers(refs, todo[0], b) ==> b in found'
    requires forall n :: n in found' && n !in found ==> n in todo'
    ensures Processed(refs, found', todo')
  {
  }

  /** The work list ends, also on cyclic references, with exactly the needed names: the least closed set. */
  method FindTransitiveSchemas(refs: References, initial: seq<Name>) returns (found: set<Name>)
    ensures forall n :: n in found <==> Needed(refs, initial, n)
    ensures Closed(refs, found) && forall n :: n in initial ==> n in found
    ensures forall names: set<Name> ::
              Closed(refs, names) && (forall n :: n in initial ==> n in names) ==> found <= names
  {
    found := set n | n in initial;
    var todo := initial;
    forall n | n in initial
      ensures Needed(refs, initial, n)
    {
      NeededStart(refs, initial, n);
    }
    while todo != []
      invariant Growing(refs, initial, found, todo) && Processed(refs, found, todo)
      decreases Mentioned(refs, initial) - found, |todo|
    {
      ghost var before, queue := found, todo;
      var current := todo[0];
      todo := todo[1..];
      if current in refs {
        found, todo := AddReferences(refs, initial, current, found, todo);
      }
      ProcessedStep(refs, before, queue, found, todo);
    }
    FoundIsNeeded(refs, initial, found);
  }

  /** A closed set of needed names that holds the initial ones is all the needed names, and the least closed set. */
  lemma FoundIsNeeded(refs: References, initial: seq<Name>, found: set<Name>)
    requires Closed(refs, found) && AllNeeded(refs, initial, found) && forall n :: n in initial ==> n in found
    ensures forall n :: n in found <==> Needed(refs, initial, n)
    ensures forall names: set<Name> ::
              Closed(refs, names) && (forall n :: n in initial ==> n in names) ==> found <= names
  {
    forall n | Needed(refs, initial, n)
      ensures n in found
    {
      NeededIsLeast(refs, initial, found, n);
    }
    forall names: set<Name>, n | Closed(refs, names) && (forall i :: i in initial ==> i in names) && n in found
      ensures n in names
    {
      NeededIsLeast(refs, initial, names, n);
    }
  }

  ghost predicate SameReferences(refs: References, refs': References) {
    forall a, b :: Refers(refs, a, b) <==> Refers(refs', a, b)
  }

  /** The order of the initial names and of the references makes no difference to what is needed. */
  lemma OrderIsIrrelevant(refs: References, refs': References, initial: seq<Name>, initial': seq<Name>, n: Name)
    requires SameReferences(refs, refs') && forall i :: i in initial <==> i in initial'
    ensures Needed(refs, initial, n) <==> Needed(refs', initial', n)
  {
  }
}
