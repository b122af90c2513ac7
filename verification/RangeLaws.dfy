/** Exact laws of shifting range maps, and of clipping, shifting and extending together. */
module RangeLaws {
  import opened Options
  import opened RangeMaps
  import opened RangeTransforms

  // ---------------------------------------------------------------------------------------------
  // Travelling a map: forward is translation, backward is reflection
  // ---------------------------------------------------------------------------------------------

  function Translated<T>(m: RangeMap<T>, entry: real): RangeMap<T> {
    if m == [] then [] else
      var a := m[|m| - 1];
      Translated(m[..|m| - 1], entry) + [Span(a.start - entry, a.end - entry, a.value)]
  }

  function Mirrored<T>(m: RangeMap<T>, entry: real): RangeMap<T> {
    if m == [] then [] else
      var a := m[|m| - 1];
      [Span(entry - a.end, entry - a.start, a.value)] + Mirrored(m[..|m| - 1], entry)
  }

  /** The map as seen when travelled from `entry` in the given direction. */
  function Travelled<T>(m: RangeMap<T>, entry: real, d: Direction): RangeMap<T> {
    if d == StartToEnd then Translated(m, entry) else Mirrored(m, entry)
  }

  lemma {:induction false} TranslatedElements<T>(m: RangeMap<T>, entry: real, i: nat)
    requires i < |m|
    ensures |Translated(m, entry)| == |m|
    ensures Translated(m, entry)[i] == Span(m[i].start - entry, m[i].end - entry, m[i].value)
    decreases |m|
  {
    if |m| > 1 {
      TranslatedElements(m[..|m| - 1], entry, if i < |m| - 1 then i else 0);
    }
  }

  lemma {:induction false} MirroredElements<T>(m: RangeMap<T>, entry: real, i: nat)
    requires i < |m|
    ensures |Mirrored(m, entry)| == |m|
    ensures var a := m[|m| - 1 - i]; Mirrored(m, entry)[i] == Span(entry - a.end, entry - a.start, a.value)
    decreases |m|
  {
    if |m| > 1 {
      MirroredElements(m[..|m| - 1], entry, if i > 0 then i - 1 else 0);
    }
  }

  /** Inserting behind everything appends. */
  lemma {:induction false} InsertBehind<T>(m: RangeMap<T>, a: Span<T>)
    requires Canonical(m) && a.start < a.end && (m != [] ==> Follows(m[|m| - 1], a))
    ensures Insert(m, a.start, a.end, a.value) == m + [a]
    decreases |m|
  {
    if m != [] {
      InsertBehind(m[1..], a);
      if |m| > 1 {
        Sorted(m, 0, |m| - 1);
      }
      assert m == [m[0]] + m[1..];
    }
  }

  /** Inserting before everything prepends. */
  lemma InsertBefore<T>(m: RangeMap<T>, a: Span<T>)
    requires Canonical(m) && a.start < a.end && (m != [] ==> Follows(a, m[0]))
    ensures Insert(m, a.start, a.end, a.value) == [a] + m
  {
  }

  lemma {:induction false} TranslatedIsCanonical<T>(m: RangeMap<T>, entry: real)
    requires Canonical(m)
    ensures Canonical(Translated(m, entry))
    decreases |m|
  {
    if m != [] {
      var init := m[..|m| - 1];
      PrefixIsCanonical(m, |m| - 1);
      TranslatedIsCanonical(init, entry);
      LastTranslated(m, entry);
    }
  }

  /** The translated last range goes behind the translated others. */
  lemma LastTranslated<T>(m: RangeMap<T>, entry: real)
    requires Canonical(m) && m != [] && Canonical(Translated(m[..|m| - 1], entry))
    ensures var before, a := Translated(m[..|m| - 1], entry), m[|m| - 1];
            && TryInsert(before, a.start - entry, a.end - entry, a.value) == Some(Translated(m, entry))
            && Canonical(Translated(m, entry))
  {
    var init, a := m[..|m| - 1], m[|m| - 1];
    Ordered(m, |m| - 1);
    if init != [] {
      Ordered(m, |m| - 2);
      TranslatedElements(init, entry, |init| - 1);
    }
    InsertBehind(Translated(init, entry), Span(a.start - entry, a.end - entry, a.value));
    InsertIsCanonical(Translated(init, entry), a.start - entry, a.end - entry, a.value);
  }

  lemma {:induction false} MirroredIsCanonical<T>(m: RangeMap<T>, entry: real)
    requires Canonical(m)
    ensures Canonical(Mirrored(m, entry))
    decreases |m|
  {
    if m != [] {
      PrefixIsCanonical(m, |m| - 1);
      MirroredIsCanonical(m[..|m| - 1], entry);
      LastMirrored(m, entry);
    }
  }

  lemma LastMirrored<T>(m: RangeMap<T>, entry: real)
    requires Canonical(m) && m != [] && Canonical(Mirrored(m[..|m| - 1], entry))
    ensures var before, a := Mirrored(m[..|m| - 1], entry), m[|m| - 1];
            && TryInsert(before, entry - a.end, entry - a.start, a.value) == Some(Mirrored(m, entry))
            && Canonical(Mirrored(m, entry))
  {
    var init, a := m[..|m| - 1], m[|m| - 1];
    Ordered(m, |m| - 1);
    if init != [] {
      Ordered(m, |m| - 2);
      MirroredElements(init, entry, 0);
    }
    InsertBefore(Mirrored(init, entry), Span(entry - a.end, entry - a.start, a.value));
    InsertIsCanonical(Mirrored(init, entry), entry - a.end, entry - a.start, a.value);
  }

  // ---------------------------------------------------------------------------------------------
  // When shifting fails, and when it is travelling
  // ---------------------------------------------------------------------------------------------

  /** The entry is on the near side of the middle of the nearest range. */
  predicate Shiftable<T>(m: RangeMap<T>, entry: real, d: Direction) {
    m == [] ||
    if d == StartToEnd then 2.0 * entry < m[0].start + m[0].end
    else m[|m| - 1].start + m[|m| - 1].end < 2.0 * entry
  }

  /** The entry is outside, on the near side of every range. */
  predicate Outside<T>(m: RangeMap<T>, entry: real, d: Direction) {
    m == [] || if d == StartToEnd then entry <= m[0].start else m[|m| - 1].end <= entry
  }

  /** Shifting fails exactly when the entry has reached the middle of the nearest range. */
  lemma {:induction false} ShiftFailsIff<T>(m: RangeMap<T>, entry: real, d: Direction)
    requires Canonical(m)
    ensures Shifted(m, entry, d).None? <==> !Shiftable(m, entry, d)
    decreases |m|
  {
    if m != [] {
      PrefixIsCanonical(m, |m| - 1);
      ShiftFailsIff(m[..|m| - 1], entry, d);
      Ordered(m, |m| - 1);
      if |m| > 1 {
        Sorted(m, 0, |m| - 1);
        Sorted(m, |m| - 2, |m| - 1);
      }
    }
  }

  lemma OutsideIsShiftable<T>(m: RangeMap<T>, entry: real, d: Direction)
    requires Canonical(m) && Outside(m, entry, d)
    ensures Shiftable(m, entry, d)
    ensures m != [] ==> Outside(m[..|m| - 1], entry, d)
  {
  }

  /** The result of a shift never reaches below zero. */
  lemma {:induction false} ShiftedIsNonNegative<T>(m: RangeMap<T>, entry: real, d: Direction, x: real)
    requires Shifted(m, entry, d).Some? && x < 0.0
    ensures Canonical(Shifted(m, entry, d).value) && At(Shifted(m, entry, d).value, x) == None
    decreases |m|
  {
    if m != [] {
      var init, a := m[..|m| - 1], m[|m| - 1];
      ShiftedIsNonNegative(init, entry, d, x);
      var before := Shifted(init, entry, d).value;
      var s, e := ShiftedStart(a, entry, d), ShiftedEnd(a, entry, d);
      InsertIsCanonical(before, s, e, a.value);
      InsertAt(before, s, e, a.value, x);
    }
  }

  lemma ForwardBounds<T>(m: RangeMap<T>, entry: real)
    requires Canonical(m) && m != [] && entry <= m[0].start
    ensures var a := m[|m| - 1];
            ShiftedStart(a, entry, StartToEnd) == a.start - entry && ShiftedEnd(a, entry, StartToEnd) == a.end - entry
  {
    Ordered(m, |m| - 1);
    if |m| > 1 {
      Sorted(m, 0, |m| - 1);
    }
  }

  lemma ShiftLast<T>(m: RangeMap<T>, entry: real, d: Direction, before: RangeMap<T>)
    requires m != [] && Shifted(m[..|m| - 1], entry, d) == Some(before)
    ensures var a := m[|m| - 1];
            Shifted(m, entry, d) == TryInsert(before, ShiftedStart(a, entry, d), ShiftedEnd(a, entry, d), a.value)
  {
  }

  lemma TranslateLast<T>(m: RangeMap<T>, entry: real)
    requires Canonical(m) && m != []
    ensures var a := m[|m| - 1];
            TryInsert(Translated(m[..|m| - 1], entry), a.start - entry, a.end - entry, a.value) == Some(Translated(m, entry))
  {
    PrefixIsCanonical(m, |m| - 1);
    TranslatedIsCanonical(m[..|m| - 1], entry);
    LastTranslated(m, entry);
  }

  lemma MirrorLast<T>(m: RangeMap<T>, entry: real)
    requires Canonical(m) && m != []
    ensures var a := m[|m| - 1];
            TryInsert(Mirrored(m[..|m| - 1], entry), entry - a.end, entry - a.start, a.value) == Some(Mirrored(m, entry))
  {
    PrefixIsCanonical(m, |m| - 1);
    MirroredIsCanonical(m[..|m| - 1], entry);
    LastMirrored(m, entry);
  }

  lemma ForwardStep<T>(m: RangeMap<T>, entry: real, before: RangeMap<T>)
    requires Canonical(m) && m != [] && entry <= m[0].start
    requires before == Translated(m[..|m| - 1], entry) && Shifted(m[..|m| - 1], entry, StartToEnd) == Some(before)
    ensures Shifted(m, entry, StartToEnd) == Some(Translated(m, entry))
  {
    ForwardBounds(m, entry);
    ShiftLast(m, entry, StartToEnd, before);
    TranslateLast(m, entry);
  }

  lemma BackwardStep<T>(m: RangeMap<T>, entry: real, before: RangeMap<T>)
    requires Canonical(m) && m != [] && m[|m| - 1].end <= entry
    requires before == Mirrored(m[..|m| - 1], entry) && Shifted(m[..|m| - 1], entry, EndToStart) == Some(before)
    ensures Shifted(m, entry, EndToStart) == Some(Mirrored(m, entry))
  {
    Ordered(m, |m| - 1);
    ShiftLast(m, entry, EndToStart, before);
    MirrorLast(m, entry);
  }

  lemma {:induction false} OutsideIsTravelled<T>(m: RangeMap<T>, entry: real, d: Direction)
    requires Canonical(m) && Outside(m, entry, d)
    ensures Shifted(m, entry, d) == Some(Travelled(m, entry, d))
    decreases |m|
  {
    if m != [] {
      PrefixIsCanonical(m, |m| - 1);
      OutsideIsShiftable(m, entry, d);
      OutsideIsTravelled(m[..|m| - 1], entry, d);
      if d == StartToEnd {
        ForwardStep(m, entry, Translated(m[..|m| - 1], entry));
      } else {
        BackwardStep(m, entry, Mirrored(m[..|m| - 1], entry));
      }
    }
  }

  /** Shifting is travelling exactly when the entry is outside, on the near side of every range. */
  lemma ShiftIsTravelIff<T>(m: RangeMap<T>, entry: real, d: Direction)
    requires Canonical(m)
    ensures Shifted(m, entry, d) == Some(Travelled(m, entry, d)) <==> Outside(m, entry, d)
  {
    if Outside(m, entry, d) {
      OutsideIsTravelled(m, entry, d);
    } else if Shifted(m, entry, d).Some? {
      var t := Travelled(m, entry, d);
      TranslatedElements(m, entry, 0);
      MirroredElements(m, entry, 0);
      ShiftedIsNonNegative(m, entry, d, t[0].start);
      Ordered(m, 0);
      Ordered(m, |m| - 1);
      assert Covers(t[0], t[0].start);
    }
  }

  // ---------------------------------------------------------------------------------------------
  // Conservation and inverse
  // ---------------------------------------------------------------------------------------------

  function Length<T>(m: RangeMap<T>): real {
    if m == [] then 0.0 else Length(m[..|m| - 1]) + (m[|m| - 1].end - m[|m| - 1].start)
  }

  lemma {:induction false} LengthCons<T>(a: Span<T>, m: RangeMap<T>)
    ensures Length([a] + m) == a.end - a.start + Length(m)
    decreases |m|
  {
    if m == [] {
      assert ([a] + m)[..0] == [];
    } else {
      LengthCons(a, m[..|m| - 1]);
      assert ([a] + m)[..|m|] == [a] + m[..|m| - 1];
    }
  }

  /** Travelling keeps the covered length, in either direction. */
  lemma {:induction false} TravelKeepsLength<T>(m: RangeMap<T>, entry: real, d: Direction)
    ensures Length(Travelled(m, entry, d)) == Length(m)
    decreases |m|
  {
    if m != [] {
      var init, a := m[..|m| - 1], m[|m| - 1];
      TravelKeepsLength(init, entry, d);
      if d == StartToEnd {
        var t := Translated(init, entry);
        assert (t + [Span(a.start - entry, a.end - entry, a.value)])[..|t|] == t;
      } else {
        LengthCons(Span(entry - a.end, entry - a.start, a.value), Mirrored(init, entry));
      }
    }
  }

  lemma MirrorTwice<T>(m: RangeMap<T>, entry: real)
    ensures Mirrored(Mirrored(m, entry), entry) == m
  {
    var n := Mirrored(m, entry);
    if m != [] {
      MirroredElements(m, entry, 0);
      MirroredElements(n, entry, 0);
      forall i | 0 <= i < |m|
        ensures Mirrored(n, entry)[i] == m[i]
      {
        MirroredElements(n, entry, i);
        MirroredElements(m, entry, |m| - 1 - i);
      }
    }
  }

  /** Travelling backward twice from the same entry restores the map exactly when it starts at zero or later. */
  lemma ShiftBackTwiceIff<T>(m: RangeMap<T>, entry: real)
    requires Canonical(m) && Outside(m, entry, EndToStart)
    ensures Shifted(m, entry, EndToStart).Some?
    ensures Shifted(Shifted(m, entry, EndToStart).value, entry, EndToStart) == Some(m)
            <==> m == [] || 0.0 <= m[0].start
  {
    OutsideIsTravelled(m, entry, EndToStart);
    var n := Mirrored(m, entry);
    MirroredIsCanonical(m, entry);
    MirrorTwice(m, entry);
    ShiftIsTravelIff(n, entry, EndToStart);
    if m != [] {
      MirroredElements(m, entry, |m| - 1);
    }
  }

  // ---------------------------------------------------------------------------------------------
  // The three operations together
  // ---------------------------------------------------------------------------------------------

  lemma {:induction false} TranslatedAt<T>(m: RangeMap<T>, entry: real, x: real)
    requires Canonical(m)
    ensures At(Translated(m, entry), x) == At(m, x + entry)
    decreases |m|
  {
    if m != [] {
      var t := Translated(m[..|m| - 1], entry);
      PrefixIsCanonical(m, |m| - 1);
      TranslatedAt(m[..|m| - 1], entry, x);
      TranslatedIsCanonical(m, entry);
      AtLast(m, x + entry);
      AtLast(Translated(m, entry), x);
      assert Translated(m, entry)[..|t|] == t;
    }
  }

  /** Away from the ends of ranges, a position of the reflected map is the reflected position. */
  lemma {:induction false} MirroredAt<T>(m: RangeMap<T>, entry: real, x: real)
    requires Canonical(m)
    requires forall i :: 0 <= i < |m| ==> entry - x != m[i].start && entry - x != m[i].end
    ensures At(Mirrored(m, entry), x) == At(m, entry - x)
    decreases |m|
  {
    if m != [] {
      var init, a := m[..|m| - 1], m[|m| - 1];
      PrefixIsCanonical(m, |m| - 1);
      MirroredAt(init, entry, x);
      AtLast(m, entry - x);
      AtCons(Span(entry - a.end, entry - a.start, a.value), Mirrored(init, entry), x);
    }
  }

  /** Extending an empty map at the entry undoes a shift forward. */
  lemma ExtendUndoesShift<T>(m: RangeMap<T>, entry: real)
    requires Canonical(m) && Outside(m, entry, StartToEnd)
    ensures Shifted(m, entry, StartToEnd).Some?
    ensures Extended([], Shifted(m, entry, StartToEnd).value, entry) == (m, true)
  {
    OutsideIsTravelled(m, entry, StartToEnd);
    ExtendUndoesTranslation(m, entry);
  }

  lemma ExtendUndoesTranslation<T>(m: RangeMap<T>, entry: real)
    requires Canonical(m)
    ensures Extended([], Translated(m, entry), entry) == (m, true)
  {
    var t, none: RangeMap<T> := Translated(m, entry), [];
    TranslatedIsCanonical(m, entry);
    ExtendIsDisjointUnion(none, t, entry);
    var r := Extended(none, t, entry).0;
    forall x: real
      ensures At(r, x) == At(m, x)
    {
      TranslatedAt(m, entry, x - entry);
      assert At(r, x) == Either(At(none, x), MovedAt(t, entry, x));
    }
    CanonicalIsUnique(r, m);
  }

  /** Clipping twice is clipping once to the common part. */
  lemma ClipsCompose<T>(m: RangeMap<T>, s: real, e: real, s': real, e': real)
    requires Canonical(m) && Max(s, s') < Min(e, e')
    ensures Clipped(m, s, e).Some?
    ensures Clipped(Clipped(m, s, e).value, s', e') == Clipped(m, Max(s, s'), Min(e, e'))
  {
    ClipFailsIff(m, s, e);
    var c := Clipped(m, s, e).value;
    ClipIsRestriction(m, s, e, 0.0);
    ClipFailsIff(c, s', e');
    ClipFailsIff(m, Max(s, s'), Min(e, e'));
    var d, r := Clipped(c, s', e').value, Clipped(m, Max(s, s'), Min(e, e')).value;
    forall x: real
      ensures Canonical(d) && Canonical(r) && At(d, x) == At(r, x)
    {
      ClipIsRestriction(m, s, e, x);
      ClipIsRestriction(c, s', e', x);
      ClipIsRestriction(m, Max(s, s'), Min(e, e'), x);
    }
    assert Canonical(d) && Canonical(r) by {
      assert At(d, 0.0) == At(r, 0.0);
    }
    CanonicalIsUnique(d, r);
  }

  /** Cutting a map in two and extending one part with the other gives the map back. */
  lemma ClipsJoin<T>(m: RangeMap<T>, s: real, mid: real, e: real)
    requires Canonical(m) && s < mid < e
    ensures Clipped(m, s, mid).Some? && Clipped(m, mid, e).Some? && Clipped(m, s, e).Some?
    ensures Extended(Clipped(m, s, mid).value, Clipped(m, mid, e).value, 0.0) == (Clipped(m, s, e).value, true)
  {
    ClipFailsIff(m, s, mid);
    ClipFailsIff(m, mid, e);
    ClipFailsIff(m, s, e);
    var a, b, c := Clipped(m, s, mid).value, Clipped(m, mid, e).value, Clipped(m, s, e).value;
    forall x: real
      ensures At(a, x) == if s <= x < mid then At(m, x) else None
      ensures At(b, x) == if mid <= x < e then At(m, x) else None
      ensures At(c, x) == if s <= x < e then At(m, x) else None
    {
      ClipIsRestriction(m, s, mid, x);
      ClipIsRestriction(m, mid, e, x);
      ClipIsRestriction(m, s, e, x);
    }
    ClipIsRestriction(m, s, mid, 0.0);
    ClipIsRestriction(m, mid, e, 0.0);
    ClipIsRestriction(m, s, e, 0.0);
    ExtendIsDisjointUnion(a, b, 0.0);
    var r := Extended(a, b, 0.0).0;
    forall x: real
      ensures At(r, x) == At(c, x)
    {
      assert MovedAt(b, 0.0, x) == At(b, x);
    }
    CanonicalIsUnique(r, c);
  }
}
