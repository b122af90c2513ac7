/** Sequences without repetition, cut into chunks and put back together. */
module Sequences {
  ghost predicate Distinct<T>(s: seq<T>) {
    forall i, j :: 0 <= i < j < |s| ==> s[i] != s[j]
  }

  /** Chunks of `limit` elements, the last one shorter when they do not divide evenly. */
  function Chunks<T>(s: seq<T>, limit: nat): seq<seq<T>>
    requires 0 < limit
    decreases |s|
  {
    if s == [] then []
    else if |s| <= limit then [s]
    else [s[..limit]] + Chunks(s[limit..], limit)
  }

  function Flatten<T>(parts: seq<seq<T>>): seq<T> {
    if parts == [] then [] else parts[0] + Flatten(parts[1..])
  }

  lemma {:induction false} FlattenConcat<T>(a: seq<seq<T>>, b: seq<seq<T>>)
    ensures Flatten(a + b) == Flatten(a) + Flatten(b)
  {
    if a == [] {
      assert a + b == b;
    } else {
      assert (a + b)[1..] == a[1..] + b;
      FlattenConcat(a[1..], b);
    }
  }

  lemma FlattenSnoc<T>(parts: seq<seq<T>>, part: seq<T>)
    ensures Flatten(parts + [part]) == Flatten(parts) + part
  {
    FlattenConcat(parts, [part]);
    assert Flatten([part]) == part + Flatten([part][1..]);
  }

  /** The chunks are the sequence. */
  lemma {:induction false} FlattenChunks<T>(s: seq<T>, limit: nat)
    requires 0 < limit
    ensures Flatten(Chunks(s, limit)) == s
    decreases |s|
  {
    if |s| > limit {
      FlattenChunks(s[limit..], limit);
      assert Chunks(s, limit)[1..] == Chunks(s[limit..], limit);
      assert s == s[..limit] + s[limit..];
    } else if s != [] {
      assert Chunks(s, limit)[1..] == [];
    }
  }

  lemma Assoc<T>(a: seq<T>, b: seq<T>, c: seq<T>)
    ensures (a + b) + c == a + (b + c)
  {
  }

  lemma Whole<T>(s: seq<T>)
    ensures s[..|s|] == s
  {
  }

  lemma Prefix<T>(s: seq<T>, n: nat)
    requires n < |s|
    ensures s[..n + 1][..n] == s[..n] && s[..n + 1] == s[..n] + [s[n]]
  {
  }
}
