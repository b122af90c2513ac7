/** Clipping range by range, and clipping what was travelled. */
module RangeCuts {
  import opened Options
  import opened Sequences
  import opened RangeMaps
  import opened RangeTransforms
  import opened RangeLaws

  /** What a clip leaves, range by range. */
  function Cut<T>(m: RangeMap<T>, s: real, e: real): RangeMap<T> {
    if m == [] then [] else Cut(m[..|m| - 1], s, e) + CutOne(m[|m| - 1], s, e)
  }

  function CutOne<T>(a: Span<T>, s: real, e: real): RangeMap<T> {
    if Overlapping(a, s, e) then [Span(Max(a.start, s), Min(a.end, e), a.value)] else []
  }

  /** The last range left is the end of a range of the map, or was cut at the end of the clip. */
  lemma {:induction false} LastCut<T>(m: RangeMap<T>, s: real, e: real) returns (i: nat)
    requires Canonical(m) && Cut(m, s, e) != []
    ensures var last := Cut(m, s, e)[|Cut(m, s, e)| - 1];
            i < |m| && last.value == m[i].value && last.end == Min(m[i].end, e)
    decreases |m|
  {
    var init, a := m[..|m| - 1], m[|m| - 1];
    if Overlapping(a, s, e) {
      i := |m| - 1;
    } else {
      PrefixIsCanonical(m, |m| - 1);
      assert Cut(m, s, e) == Cut(init, s, e);
      i := LastCut(init, s, e);
    }
  }

  /** A range that overlaps the clip follows what is left of the ranges before it. */
  lemma CutFollows<T>(m: RangeMap<T>, s: real, e: real)
    requires Canonical(m) && s < e && m != [] && Overlapping(m[|m| - 1], s, e)
    requires Cut(m[..|m| - 1], s, e) != []
    ensures var before := Cut(m[..|m| - 1], s, e);
            Follows(before[|before| - 1], CutOne(m[|m| - 1], s, e)[0])
  {
    PrefixIsCanonical(m, |m| - 1);
    var i := LastCut(m[..|m| - 1], s, e);
    Sorted(m, i, |m| - 1);
    Ordered(m, i);
    if i < |m| - 2 {
      Sorted(m, i, |m| - 2);
      Sorted(m, |m| - 2, |m| - 1);
    }
  }

  /** So inserting each one appends it: clipping is cutting range by range. */
  lemma {:induction false} ClipIsCut<T>(m: RangeMap<T>, s: real, e: real)
    requires Canonical(m) && s < e
    ensures Clipped(m, s, e) == Some(Cut(m, s, e)) && Canonical(Cut(m, s, e))
    decreases |m|
  {
    if m != [] {
      var init, a := m[..|m| - 1], m[|m| - 1];
      PrefixIsCanonical(m, |m| - 1);
      ClipIsCut(init, s, e);
      if Overlapping(a, s, e) {
        Ordered(m, |m| - 1);
        var before, cut := Cut(init, s, e), CutOne(a, s, e)[0];
        if before != [] {
          CutFollows(m, s, e);
        }
        InsertBehind(before, cut);
        InsertIsCanonical(before, cut.start, cut.end, cut.value);
      } else {
        assert Cut(m, s, e) == Cut(init, s, e);
      }
    }
  }

  lemma CutSnoc<T>(m: RangeMap<T>, a: Span<T>, s: real, e: real)
    ensures Cut(m + [a], s, e) == Cut(m, s, e) + CutOne(a, s, e)
  {
    assert (m + [a])[..|m|] == m;
  }

  lemma {:induction false} CutCons<T>(a: Span<T>, m: RangeMap<T>, s: real, e: real)
    ensures Cut([a] + m, s, e) == CutOne(a, s, e) + Cut(m, s, e)
    decreases |m|
  {
    if m == [] {
      CutSnoc(m, a, s, e);
      assert [a] + m == m + [a];
    } else {
      var init, last := m[..|m| - 1], m[|m| - 1];
      CutCons(a, init, s, e);
      CutSnoc([a] + init, last, s, e);
      assert [a] + m == ([a] + init) + [last];
      Assoc(CutOne(a, s, e), Cut(init, s, e), CutOne(last, s, e));
    }
  }

  function TranslatedOne<T>(a: Span<T>, entry: real): Span<T> {
    Span(a.start - entry, a.end - entry, a.value)
  }

  function MirroredOne<T>(a: Span<T>, entry: real): Span<T> {
    Span(entry - a.end, entry - a.start, a.value)
  }

  /** Appending what is left of one range appends it to the translated map. */
  lemma TranslatedAppend<T>(m: RangeMap<T>, n: RangeMap<T>, entry: real)
    requires |n| <= 1
    ensures Translated(m + n, entry) == Translated(m, entry) + if n == [] then [] else [TranslatedOne(n[0], entry)]
  {
    if n == [] {
      assert m + n == m;
    } else {
      assert (m + n)[..|m|] == m;
    }
  }

  lemma MirroredAppend<T>(m: RangeMap<T>, n: RangeMap<T>, entry: real)
    requires |n| <= 1
    ensures Mirrored(m + n, entry) == (if n == [] then [] else [MirroredOne(n[0], entry)]) + Mirrored(m, entry)
  {
    if n == [] {
      assert m + n == m;
    } else {
      assert (m + n)[..|m|] == m;
    }
  }

  lemma {:induction false} CutTranslated<T>(m: RangeMap<T>, entry: real, s: real, e: real)
    ensures Cut(Translated(m, entry), s - entry, e - entry) == Translated(Cut(m, s, e), entry)
    decreases |m|
  {
    if m != [] {
      var init, a := m[..|m| - 1], m[|m| - 1];
      CutTranslated(init, entry, s, e);
      CutSnoc(Translated(init, entry), TranslatedOne(a, entry), s - entry, e - entry);
      TranslatedAppend(Cut(init, s, e), CutOne(a, s, e), entry);
    }
  }

  lemma CutOneMirrored<T>(a: Span<T>, entry: real, s: real, e: real)
    ensures CutOne(MirroredOne(a, entry), entry - e, entry - s)
         == if CutOne(a, s, e) == [] then [] else [MirroredOne(CutOne(a, s, e)[0], entry)]
  {
  }

  lemma {:induction false} CutMirrored<T>(m: RangeMap<T>, entry: real, s: real, e: real)
    ensures Cut(Mirrored(m, entry), entry - e, entry - s) == Mirrored(Cut(m, s, e), entry)
    decreases |m|
  {
    if m != [] {
      CutMirrored(m[..|m| - 1], entry, s, e);
      CutMirroredStep(m[..|m| - 1], m[|m| - 1], entry, s, e);
      assert m == m[..|m| - 1] + [m[|m| - 1]];
    }
  }

  lemma CutMirroredStep<T>(init: RangeMap<T>, a: Span<T>, entry: real, s: real, e: real)
    requires Cut(Mirrored(init, entry), entry - e, entry - s) == Mirrored(Cut(init, s, e), entry)
    ensures Cut(Mirrored(init + [a], entry), entry - e, entry - s) == Mirrored(Cut(init + [a], s, e), entry)
  {
    MirroredAppend(init, [a], entry);
    CutCons(MirroredOne(a, entry), Mirrored(init, entry), entry - e, entry - s);
    CutOneMirrored(a, entry, s, e);
    CutSnoc(init, a, s, e);
    MirroredAppend(Cut(init, s, e), CutOne(a, s, e), entry);
  }

  /** A clip never reaches beyond the map, on either side. */
  lemma ClipStaysOutside<T>(m: RangeMap<T>, entry: real, d: Direction, s: real, e: real)
    requires Canonical(m) && Outside(m, entry, d) && s < e
    ensures Outside(Cut(m, s, e), entry, d)
  {
    var c := Cut(m, s, e);
    if c != [] {
      ClipIsCut(m, s, e);
      if d == StartToEnd {
        ClipIsRestriction(m, s, e, c[0].start);
        HeadIsThere(c);
        if c[0].start < entry {
          NothingBefore(m, c[0].start);
        }
      } else {
        var i := LastCut(m, s, e);
        if i < |m| - 1 {
          Sorted(m, i, |m| - 1);
        }
      }
    }
  }

  /** Where the part between `s` and `e` comes to lie once travelled. */
  function TravelledFrom(entry: real, d: Direction, s: real, e: real): real {
    if d == StartToEnd then s - entry else entry - e
  }

  function TravelledTo(entry: real, d: Direction, s: real, e: real): real {
    if d == StartToEnd then e - entry else entry - s
  }

  lemma CutCommutesWithTravel<T>(m: RangeMap<T>, entry: real, d: Direction, s: real, e: real)
    ensures Cut(Travelled(m, entry, d), TravelledFrom(entry, d, s, e), TravelledTo(entry, d, s, e))
         == Travelled(Cut(m, s, e), entry, d)
  {
    if d == StartToEnd {
      CutTranslated(m, entry, s, e);
    } else {
      CutMirrored(m, entry, s, e);
    }
  }

  lemma TravelledIsCanonical<T>(m: RangeMap<T>, entry: real, d: Direction)
    requires Canonical(m)
    ensures Canonical(Travelled(m, entry, d))
  {
    if d == StartToEnd {
      TranslatedIsCanonical(m, entry);
    } else {
      MirroredIsCanonical(m, entry);
    }
  }

  /** Clipping what was travelled is travelling what was clipped, in both directions. */
  lemma ClipCommutesWithShift<T>(m: RangeMap<T>, entry: real, d: Direction, s: real, e: real)
    requires Canonical(m) && Outside(m, entry, d) && s < e
    ensures Shifted(m, entry, d).Some? && Clipped(m, s, e).Some?
    ensures Clipped(Shifted(m, entry, d).value, TravelledFrom(entry, d, s, e), TravelledTo(entry, d, s, e))
            == Shifted(Clipped(m, s, e).value, entry, d)
  {
    OutsideIsTravelled(m, entry, d);
    ClipIsCut(m, s, e);
    ClipStaysOutside(m, entry, d, s, e);
    OutsideIsTravelled(Cut(m, s, e), entry, d);
    TravelledIsCanonical(m, entry, d);
    ClipIsCut(Travelled(m, entry, d), TravelledFrom(entry, d, s, e), TravelledTo(entry, d, s, e));
    CutCommutesWithTravel(m, entry, d, s, e);
  }
}
