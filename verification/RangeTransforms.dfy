/** Clipping, shifting and extending range maps, and the laws they obey. */
module RangeTransforms {
  import opened Options
  import opened RangeMaps

  datatype Direction = StartToEnd | EndToStart

  // ---------------------------------------------------------------------------------------------
  // The loops of the program
  // ---------------------------------------------------------------------------------------------

  /** Whether a range overlaps a queried one, in the library's sense. */
  predicate Overlapping<T>(a: Span<T>, s: real, e: real) {
    a.start < e && s < a.end
  }

  predicate Overlaps<T>(m: RangeMap<T>, s: real, e: real) {
    m != [] && (Overlapping(m[0], s, e) || Overlaps(m[1..], s, e))
  }

  /** Inserting a range that is empty or reversed panics: `None`. */
  function TryInsert<T(==)>(m: RangeMap<T>, s: real, e: real, v: T): Option<RangeMap<T>> {
    if s < e then Some(Insert(m, s, e, v)) else None
  }

  function Clipped<T(==)>(m: RangeMap<T>, s: real, e: real): Option<RangeMap<T>> {
    if m == [] then Some([]) else
      var before, a := Clipped(m[..|m| - 1], s, e), m[|m| - 1];
      if before.None? || !Overlapping(a, s, e) then before
      else TryInsert(before.value, Max(a.start, s), Min(a.end, e), a.value)
  }

  method Clip<T(==)>(m: RangeMap<T>, s: real, e: real) returns (r: Option<RangeMap<T>>)
    ensures r == Clipped(m, s, e)
  {
    r := Some([]);
    for n := 0 to |m|
      invariant r == Clipped(m[..n], s, e)
    {
      assert m[..n + 1][..n] == m[..n];
      if r.Some? && Overlapping(m[n], s, e) {
        r := TryInsert(r.value, Max(m[n].start, s), Min(m[n].end, e), m[n].value);
      }
    }
    assert m[..|m|] == m;
  }

  function ShiftedStart<T>(a: Span<T>, entry: real, d: Direction): real {
    Abs((if d == StartToEnd then a.start else a.end) - entry)
  }

  function ShiftedEnd<T>(a: Span<T>, entry: real, d: Direction): real {
    Abs((if d == StartToEnd then a.end else a.start) - entry)
  }

  function Shifted<T(==)>(m: RangeMap<T>, entry: real, d: Direction): Option<RangeMap<T>> {
    if m == [] then Some([]) else
      var before, a := Shifted(m[..|m| - 1], entry, d), m[|m| - 1];
      if before.None? then None
      else TryInsert(before.value, ShiftedStart(a, entry, d), ShiftedEnd(a, entry, d), a.value)
  }

  method Shift<T(==)>(m: RangeMap<T>, entry: real, d: Direction) returns (r: Option<RangeMap<T>>)
    ensures r == Shifted(m, entry, d)
  {
    r := Some([]);
    for n := 0 to |m|
      invariant r == Shifted(m[..n], entry, d)
    {
      assert m[..n + 1][..n] == m[..n];
      if r.Some? {
        r := TryInsert(r.value, ShiftedStart(m[n], entry, d), ShiftedEnd(m[n], entry, d), m[n].value);
      }
    }
    assert m[..|m|] == m;
  }

  /** The destination after inserting the origin range by range, stopping at the first overlap. */
  function Extended<T(==)>(dest: RangeMap<T>, origin: RangeMap<T>, offset: real): (RangeMap<T>, bool) {
    if origin == [] then (dest, true) else
      var (before, ok) := Extended(dest, origin[..|origin| - 1], offset);
      var a := origin[|origin| - 1];
      if !ok || !(a.start < a.end) || Overlaps(before, a.start + offset, a.end + offset) then (before, false)
      else (Insert(before, a.start + offset, a.end + offset, a.value), true)
  }

  class Destination<T(==)> {
    var ranges: RangeMap<T>

    /** Inserts a range map at an offset, in place; fails on an overlap, keeping what was inserted before it. */
    method Extend(origin: RangeMap<T>, offset: real) returns (ok: bool)
      modifies this
      ensures (ranges, ok) == Extended(old(ranges), origin, offset)
    {
      ok := true;
      var n := 0;
      while ok && n < |origin|
        invariant 0 <= n <= |origin|
        invariant ok ==> (ranges, true) == Extended(old(ranges), origin[..n], offset)
        invariant !ok ==> (ranges, false) == Extended(old(ranges), origin, offset)
      {
        assert origin[..n + 1][..n] == origin[..n];
        var a := origin[n];
        if !(a.start < a.end) || Overlaps(ranges, a.start + offset, a.end + offset) {
          ok := false;
          StopsThere(old(ranges), origin, offset, n + 1);
        } else {
          ranges := Insert(ranges, a.start + offset, a.end + offset, a.value);
          n := n + 1;
        }
      }
      assert origin[..|origin|] == origin;
    }
  }

  lemma {:induction false} StopsThere<T>(dest: RangeMap<T>, origin: RangeMap<T>, offset: real, n: nat)
    requires n <= |origin| && !Extended(dest, origin[..n], offset).1
    ensures Extended(dest, origin, offset) == Extended(dest, origin[..n], offset)
    decreases |origin| - n
  {
    if n == |origin| {
      assert origin[..n] == origin;
    } else {
      assert origin[..n + 1][..n] == origin[..n];
      StopsThere(dest, origin, offset, n + 1);
    }
  }

  // ---------------------------------------------------------------------------------------------
  // Reading a canonical map range by range
  // ---------------------------------------------------------------------------------------------

  lemma {:induction false} Sorted<T>(m: RangeMap<T>, i: nat, j: nat)
    requires Canonical(m) && i < j < |m|
    ensures m[i].start < m[i].end <= m[j].start < m[j].end
    decreases j
  {
    if i > 0 {
      Sorted(m[1..], i - 1, j - 1);
    } else if j > 1 {
      Sorted(m[1..], 0, j - 1);
    } else {
      assert Canonical(m[1..]);
    }
  }

  lemma {:induction false} Ordered<T>(m: RangeMap<T>, i: nat)
    requires Canonical(m) && i < |m|
    ensures m[i].start < m[i].end && (i + 1 < |m| ==> Follows(m[i], m[i + 1]))
    decreases i
  {
    if i > 0 {
      Ordered(m[1..], i - 1);
    }
  }

  lemma {:induction false} PrefixIsCanonical<T>(m: RangeMap<T>, n: nat)
    requires Canonical(m) && n <= |m|
    ensures Canonical(m[..n])
    decreases n
  {
    if n > 0 {
      assert m[..n][1..] == m[1..][..n - 1];
      PrefixIsCanonical(m[1..], n - 1);
    }
  }

  /** The last range decides where it reaches, the ranges before it elsewhere. */
  lemma {:induction false} AtLast<T>(m: RangeMap<T>, x: real)
    requires Canonical(m) && m != []
    ensures At(m, x) == if Covers(m[|m| - 1], x) then Some(m[|m| - 1].value) else At(m[..|m| - 1], x)
    decreases |m|
  {
    if |m| > 1 {
      AtLast(m[1..], x);
      assert m[1..][..|m| - 2] == m[..|m| - 1][1..];
      Sorted(m, 0, |m| - 1);
    }
  }

  // ---------------------------------------------------------------------------------------------
  // Clipping is restriction
  // ---------------------------------------------------------------------------------------------

  /** Clipping fails exactly when the clip range is empty or reversed and a range straddles it. */
  lemma {:induction false} ClipFailsIff<T>(m: RangeMap<T>, s: real, e: real)
    requires Canonical(m)
    ensures Clipped(m, s, e).None? <==> e <= s && Overlaps(m, s, e)
    decreases |m|
  {
    if m != [] {
      PrefixIsCanonical(m, |m| - 1);
      ClipFailsIff(m[..|m| - 1], s, e);
      OverlapsLast(m, s, e);
      Ordered(m, |m| - 1);
    }
  }

  lemma {:induction false} OverlapsLast<T>(m: RangeMap<T>, s: real, e: real)
    requires m != []
    ensures Overlaps(m, s, e) <==> Overlaps(m[..|m| - 1], s, e) || Overlapping(m[|m| - 1], s, e)
    decreases |m|
  {
    if |m| > 1 {
      OverlapsLast(m[1..], s, e);
      assert m[1..][..|m| - 2] == m[..|m| - 1][1..];
    }
  }

  lemma {:induction false} ClipIsRestriction<T>(m: RangeMap<T>, s: real, e: real, x: real)
    requires Canonical(m) && Clipped(m, s, e).Some?
    ensures Canonical(Clipped(m, s, e).value)
    ensures At(Clipped(m, s, e).value, x) == if s <= x < e then At(m, x) else None
    decreases |m|
  {
    if m != [] {
      var init, a := m[..|m| - 1], m[|m| - 1];
      PrefixIsCanonical(m, |m| - 1);
      ClipIsRestriction(init, s, e, x);
      AtLast(m, x);
      Ordered(m, |m| - 1);
      if Overlapping(a, s, e) {
        var before := Clipped(init, s, e).value;
        InsertIsCanonical(before, Max(a.start, s), Min(a.end, e), a.value);
        InsertAt(before, Max(a.start, s), Min(a.end, e), a.value, x);
      }
    }
  }

  // ---------------------------------------------------------------------------------------------
  // Extending is disjoint union
  // ---------------------------------------------------------------------------------------------

  lemma {:induction false} ValuedOverlaps<T>(m: RangeMap<T>, s: real, e: real, x: real)
    requires s <= x < e && At(m, x).Some?
    ensures Overlaps(m, s, e)
    decreases |m|
  {
    if !Covers(m[0], x) {
      ValuedOverlaps(m[1..], s, e, x);
    }
  }

  lemma {:induction false} OverlapHasValue<T>(m: RangeMap<T>, s: real, e: real) returns (x: real)
    requires Canonical(m) && s < e && Overlaps(m, s, e)
    ensures s <= x < e && At(m, x).Some?
    decreases |m|
  {
    if Overlapping(m[0], s, e) {
      x := Max(m[0].start, s);
    } else {
      x := OverlapHasValue(m[1..], s, e);
    }
  }

  /** The value the origin puts at a position once it is moved. */
  function MovedAt<T>(origin: RangeMap<T>, offset: real, x: real): Option<T> {
    At(origin, x - offset)
  }

  /** The two maps have no position in common once the origin is moved. */
  ghost predicate Apart<T>(dest: RangeMap<T>, origin: RangeMap<T>, offset: real) {
    forall x: real :: At(dest, x).None? || MovedAt(origin, offset, x).None?
  }

  function Either<T>(a: Option<T>, b: Option<T>): Option<T> {
    if a.Some? then a else b
  }

  ghost predicate Union<T>(m: RangeMap<T>, dest: RangeMap<T>, origin: RangeMap<T>, offset: real) {
    forall x: real :: At(m, x) == Either(At(dest, x), MovedAt(origin, offset, x))
  }

  /** The last range of the origin, once moved, decides where it reaches. */
  lemma OriginLast<T>(origin: RangeMap<T>, offset: real, x: real)
    requires Canonical(origin) && origin != []
    ensures var a, init := origin[|origin| - 1], origin[..|origin| - 1];
            var inside := a.start + offset <= x < a.end + offset;
            && MovedAt(origin, offset, x) == (if inside then Some(a.value) else MovedAt(init, offset, x))
            && (inside ==> MovedAt(init, offset, x) == None)
  {
    AtLast(origin, x - offset);
    if Covers(origin[|origin| - 1], x - offset) {
      LastIsAlone(origin, x - offset);
    }
  }

  /** Inserting the last range into a union gives the union with it. */
  lemma UnionGrows<T>(dest: RangeMap<T>, origin: RangeMap<T>, offset: real, before: RangeMap<T>)
    requires Canonical(origin) && origin != [] && Canonical(before)
    requires Union(before, dest, origin[..|origin| - 1], offset)
    requires var a := origin[|origin| - 1]; !Overlaps(before, a.start + offset, a.end + offset)
    ensures var a := origin[|origin| - 1];
            && a.start < a.end
            && Union(Insert(before, a.start + offset, a.end + offset, a.value), dest, origin, offset)
  {
    var a := origin[|origin| - 1];
    var s, e := a.start + offset, a.end + offset;
    Ordered(origin, |origin| - 1);
    forall x: real
      ensures At(Insert(before, s, e, a.value), x) == Either(At(dest, x), MovedAt(origin, offset, x))
    {
      OriginLast(origin, offset, x);
      InsertAt(before, s, e, a.value, x);
      if s <= x < e && At(before, x).Some? {
        ValuedOverlaps(before, s, e, x);
      }
    }
  }

  /** The last range overlaps the union exactly when it meets the destination. */
  lemma OverlapIsMeeting<T>(dest: RangeMap<T>, origin: RangeMap<T>, offset: real, before: RangeMap<T>)
    requires Canonical(origin) && origin != [] && Canonical(before)
    requires Union(before, dest, origin[..|origin| - 1], offset)
    requires Apart(dest, origin[..|origin| - 1], offset)
    ensures var a := origin[|origin| - 1];
            Overlaps(before, a.start + offset, a.end + offset) <==> !Apart(dest, origin, offset)
  {
    var a := origin[|origin| - 1];
    var s, e := a.start + offset, a.end + offset;
    Ordered(origin, |origin| - 1);
    if Overlaps(before, s, e) {
      var x := OverlapHasValue(before, s, e);
      OriginLast(origin, offset, x);
      assert At(dest, x).Some? && MovedAt(origin, offset, x).Some?;
    }
    if !Apart(dest, origin, offset) {
      var x: real :| At(dest, x).Some? && MovedAt(origin, offset, x).Some?;
      OriginLast(origin, offset, x);
      assert MovedAt(origin[..|origin| - 1], offset, x).None?;
      ValuedOverlaps(before, s, e, x);
    }
  }

  lemma ApartFromInit<T>(dest: RangeMap<T>, origin: RangeMap<T>, offset: real)
    requires Canonical(origin) && origin != [] && Apart(dest, origin, offset)
    ensures Apart(dest, origin[..|origin| - 1], offset)
  {
    forall x: real
      ensures At(dest, x).None? || MovedAt(origin[..|origin| - 1], offset, x).None?
    {
      OriginLast(origin, offset, x);
      assert At(dest, x).None? || MovedAt(origin, offset, x).None?;
    }
  }

  /** Extending succeeds exactly when the moved origin does not meet the destination, and is then their union. */
  lemma {:induction false} ExtendIsDisjointUnion<T>(dest: RangeMap<T>, origin: RangeMap<T>, offset: real)
    requires Canonical(dest) && Canonical(origin)
    ensures Canonical(Extended(dest, origin, offset).0)
    ensures Extended(dest, origin, offset).1 <==> Apart(dest, origin, offset)
    ensures Extended(dest, origin, offset).1 ==> Union(Extended(dest, origin, offset).0, dest, origin, offset)
    decreases |origin|
  {
    if origin != [] {
      var init, a := origin[..|origin| - 1], origin[|origin| - 1];
      PrefixIsCanonical(origin, |origin| - 1);
      ExtendIsDisjointUnion(dest, init, offset);
      Ordered(origin, |origin| - 1);
      var (before, ok) := Extended(dest, init, offset);
      if ok {
        OverlapIsMeeting(dest, origin, offset, before);
        if !Overlaps(before, a.start + offset, a.end + offset) {
          InsertIsCanonical(before, a.start + offset, a.end + offset, a.value);
          UnionGrows(dest, origin, offset, before);
        }
      } else if Apart(dest, origin, offset) {
        ApartFromInit(dest, origin, offset);
      }
    }
  }

  lemma {:induction false} LastIsAlone<T>(m: RangeMap<T>, x: real)
    requires Canonical(m) && m != [] && Covers(m[|m| - 1], x)
    ensures At(m[..|m| - 1], x) == None
    decreases |m|
  {
    if |m| > 1 {
      LastIsAlone(m[1..], x);
      assert m[1..][..|m| - 2] == m[..|m| - 1][1..];
      Sorted(m, 0, |m| - 1);
    }
  }
}
