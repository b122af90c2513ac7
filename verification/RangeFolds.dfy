/** Shifting from an entry inside the map, and extending onto an overlap: what the transformations leave there. */
module RangeFolds {
  import opened Options
  import opened Sequences
  import opened RangeMaps
  import opened RangeTransforms
  import opened RangeLaws

  // ---------------------------------------------------------------------------------------------
  // Shifting from inside
  // ---------------------------------------------------------------------------------------------

  /** The nearest range without what lies on the far side of the entry, and as much again on the near side. */
  function Folded<T>(m: RangeMap<T>, entry: real, d: Direction): RangeMap<T> {
    if m == [] then m
    else if d == StartToEnd then
      if entry <= m[0].start then m else m[0 := Span(2.0 * entry - m[0].start, m[0].end, m[0].value)]
    else
      var n := |m| - 1;
      if m[n].end <= entry then m else m[n := Span(m[n].start, 2.0 * entry - m[n].end, m[n].value)]
  }

  lemma {:induction false} SameDistancesSameShift<T>(m: RangeMap<T>, n: RangeMap<T>, entry: real, d: Direction)
    requires |m| == |n|
    requires forall i :: 0 <= i < |m| ==>
               && m[i].value == n[i].value
               && ShiftedStart(m[i], entry, d) == ShiftedStart(n[i], entry, d)
               && ShiftedEnd(m[i], entry, d) == ShiftedEnd(n[i], entry, d)
    ensures Shifted(m, entry, d) == Shifted(n, entry, d)
    decreases |m|
  {
    if m != [] {
      SameDistancesSameShift(m[..|m| - 1], n[..|n| - 1], entry, d);
    }
  }

  lemma FoldedHead<T>(m: RangeMap<T>, entry: real)
    requires Canonical(m) && m != [] && m[0].start < entry && 2.0 * entry < m[0].start + m[0].end
    ensures Canonical(Folded(m, entry, StartToEnd)) && Outside(Folded(m, entry, StartToEnd), entry, StartToEnd)
  {
    var a := Span(2.0 * entry - m[0].start, m[0].end, m[0].value);
    ConsCanonical(a, m[1..]);
    assert Folded(m, entry, StartToEnd) == [a] + m[1..];
  }

  /** Cutting the end of the last range keeps a map canonical. */
  lemma {:induction false} ShorterLast<T>(m: RangeMap<T>, end: real)
    requires Canonical(m) && m != [] && m[|m| - 1].start < end
    ensures Canonical(m[|m| - 1 := Span(m[|m| - 1].start, end, m[|m| - 1].value)])
    decreases |m|
  {
    var n := m[|m| - 1 := Span(m[|m| - 1].start, end, m[|m| - 1].value)];
    if |m| > 1 {
      ShorterLast(m[1..], end);
      assert n[1..] == m[1..][|m| - 2 := Span(m[|m| - 1].start, end, m[|m| - 1].value)];
    }
  }

  lemma FoldedIsOutside<T>(m: RangeMap<T>, entry: real, d: Direction)
    requires Canonical(m) && Shiftable(m, entry, d)
    ensures Canonical(Folded(m, entry, d)) && Outside(Folded(m, entry, d), entry, d)
  {
    if m != [] {
      if d == StartToEnd {
        if m[0].start < entry {
          FoldedHead(m, entry);
        }
      } else if entry < m[|m| - 1].end {
        ShorterLast(m, 2.0 * entry - m[|m| - 1].end);
      }
    }
  }

  /** Folding keeps every distance to the entry. */
  lemma FoldedShiftsAlike<T>(m: RangeMap<T>, entry: real, d: Direction)
    requires Canonical(m) && Shiftable(m, entry, d)
    ensures Shifted(Folded(m, entry, d), entry, d) == Shifted(m, entry, d)
  {
    SameDistancesSameShift(Folded(m, entry, d), m, entry, d);
  }

  /**
   Shifting is travelling the folded map, whenever it does not fail: from an entry inside the nearest range, what lies
   behind the entry and as much again before it is lost.
   */
  lemma ShiftIsFoldedTravel<T>(m: RangeMap<T>, entry: real, d: Direction)
    requires Canonical(m) && Shiftable(m, entry, d)
    ensures Shifted(m, entry, d) == Some(Travelled(Folded(m, entry, d), entry, d))
  {
    FoldedIsOutside(m, entry, d);
    FoldedShiftsAlike(m, entry, d);
    OutsideIsTravelled(Folded(m, entry, d), entry, d);
  }

  lemma {:induction false} LengthUpdate<T>(m: RangeMap<T>, i: nat, a: Span<T>)
    requires i < |m|
    ensures Length(m[i := a]) == Length(m) - (m[i].end - m[i].start) + (a.end - a.start)
    decreases |m|
  {
    if i < |m| - 1 {
      LengthUpdate(m[..|m| - 1], i, a);
      assert m[i := a][..|m| - 1] == m[..|m| - 1][i := a];
    } else {
      assert m[i := a][..|m| - 1] == m[..|m| - 1];
    }
  }

  /** How far the entry lies inside the map. */
  function Depth<T>(m: RangeMap<T>, entry: real, d: Direction): real {
    if m == [] then 0.0
    else if d == StartToEnd then Max(0.0, entry - m[0].start) else Max(0.0, m[|m| - 1].end - entry)
  }

  /** So a shift keeps the covered length but for twice the depth of its entry. */
  lemma ShiftKeepsLengthBut<T>(m: RangeMap<T>, entry: real, d: Direction)
    requires Canonical(m) && Shiftable(m, entry, d)
    ensures Shifted(m, entry, d).Some?
    ensures Length(Shifted(m, entry, d).value) == Length(m) - 2.0 * Depth(m, entry, d)
  {
    ShiftIsFoldedTravel(m, entry, d);
    TravelKeepsLength(Folded(m, entry, d), entry, d);
    FoldedLength(m, entry, d);
  }

  lemma FoldedLength<T>(m: RangeMap<T>, entry: real, d: Direction)
    ensures Length(Folded(m, entry, d)) == Length(m) - 2.0 * Depth(m, entry, d)
  {
    if m != [] {
      if d == StartToEnd {
        LengthUpdate(m, 0, Span(2.0 * entry - m[0].start, m[0].end, m[0].value));
      } else {
        var n := |m| - 1;
        LengthUpdate(m, n, Span(m[n].start, 2.0 * entry - m[n].end, m[n].value));
      }
    }
  }

  // ---------------------------------------------------------------------------------------------
  // Extending onto an overlap
  // ---------------------------------------------------------------------------------------------

  /** The moved range shares a position with the destination. */
  ghost predicate Meets<T>(dest: RangeMap<T>, a: Span<T>, offset: real) {
    exists x: real :: At(dest, x).Some? && a.start + offset <= x < a.end + offset
  }

  lemma MeetingIsWithLast<T>(dest: RangeMap<T>, origin: RangeMap<T>, offset: real)
    requires Canonical(origin) && origin != [] && Apart(dest, origin[..|origin| - 1], offset) && !Apart(dest, origin, offset)
    ensures Meets(dest, origin[|origin| - 1], offset)
  {
    var x: real :| At(dest, x).Some? && MovedAt(origin, offset, x).Some?;
    OriginLast(origin, offset, x);
    assert MovedAt(origin[..|origin| - 1], offset, x).None?;
    var a := origin[|origin| - 1];
    assert a.start + offset <= x < a.end + offset;
  }

  /**
   A failed extension leaves the destination with exactly the ranges before the first one that meets it, and that
   one is the first: the ranges before it all keep apart.
   */
  lemma {:induction false} ExtendStopsAtFirstMeeting<T>(dest: RangeMap<T>, origin: RangeMap<T>, offset: real) returns (n: nat)
    requires Canonical(dest) && Canonical(origin) && !Extended(dest, origin, offset).1
    ensures n < |origin| && Meets(dest, origin[n], offset) && Apart(dest, origin[..n], offset)
    ensures Union(Extended(dest, origin, offset).0, dest, origin[..n], offset)
    decreases |origin|
  {
    var init := origin[..|origin| - 1];
    PrefixIsCanonical(origin, |origin| - 1);
    ExtendIsDisjointUnion(dest, init, offset);
    if Extended(dest, init, offset).1 {
      n := |origin| - 1;
      ExtendIsDisjointUnion(dest, origin, offset);
      Ordered(origin, n);
      MeetingIsWithLast(dest, origin, offset);
    } else {
      n := ExtendStopsAtFirstMeeting(dest, init, offset);
      assert init[..n] == origin[..n];
    }
  }
}
