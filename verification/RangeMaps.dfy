/**
 Range maps: values over disjoint half-open ranges, kept sorted and with touching ranges of equal value merged.
 Clipping, shifting and extending are read pointwise, as functions from positions to values.
 */
module RangeMaps {
  import opened Options

  datatype Span<T> = Span(start: real, end: real, value: T)

  type RangeMap<T> = seq<Span<T>>

  predicate Follows<T(==)>(a: Span<T>, b: Span<T>) {
    a.end <= b.start && (a.end == b.start ==> a.value != b.value)
  }

  /** Sorted, disjoint, no empty range, and touching ranges differ. */
  predicate Canonical<T(==)>(m: RangeMap<T>) {
    m == [] || (m[0].start < m[0].end && (|m| > 1 ==> Follows(m[0], m[1])) && Canonical(m[1..]))
  }

  predicate Covers<T>(a: Span<T>, x: real) {
    a.start <= x < a.end
  }

  /** The value at a position, if any. */
  function At<T>(m: RangeMap<T>, x: real): Option<T> {
    if m == [] then None else if Covers(m[0], x) then Some(m[0].value) else At(m[1..], x)
  }

  function Min(a: real, b: real): real { if a <= b then a else b }

  function Max(a: real, b: real): real { if a <= b then b else a }

  function Abs(a: real): real { if a < 0.0 then -a else a }

  /** The library's insertion: the new range overwrites what it overlaps and merges with equal neighbours. */
  function Insert<T(==)>(m: RangeMap<T>, s: real, e: real, v: T): RangeMap<T>
    requires s < e
    decreases |m|
  {
    if m == [] then [Span(s, e, v)] else
      var h, rest := m[0], m[1..];
      if h.end < s || (h.end == s && h.value != v) then [h] + Insert(rest, s, e, v)
      else if e < h.start || (e == h.start && h.value != v) then [Span(s, e, v)] + m
      else if h.value == v then Insert(rest, Min(s, h.start), Max(e, h.end), v)
      else
        var left := if h.start < s then [Span(h.start, s, h.value)] else [];
        if e < h.end then left + [Span(s, e, v), Span(e, h.end, h.value)] + rest
        else left + Insert(rest, s, e, v)
  }

  // ---------------------------------------------------------------------------------------------
  // Canonical maps
  // ---------------------------------------------------------------------------------------------

  /** Nothing lies before the first range. */
  lemma {:induction false} NothingBefore<T>(m: RangeMap<T>, x: real)
    requires Canonical(m) && (m != [] ==> x < m[0].start)
    ensures At(m, x) == None
    decreases |m|
  {
    if m != [] {
      NothingBefore(m[1..], x);
    }
  }

  lemma TailIsAfter<T>(m: RangeMap<T>, x: real)
    requires Canonical(m) && m != [] && x < m[0].end
    ensures At(m[1..], x) == None
  {
  }

  lemma HeadIsThere<T>(m: RangeMap<T>)
    requires Canonical(m) && m != []
    ensures At(m, m[0].start) == Some(m[0].value)
  {
  }

  /** The value of the first range stops at its end. */
  lemma HeadEnds<T>(m: RangeMap<T>)
    requires Canonical(m) && m != []
    ensures At(m, m[0].end) != Some(m[0].value)
  {
    var x := m[0].end;
    assert At(m, x) == At(m[1..], x);
    if |m| == 1 || x < m[1].start {
      NothingBefore(m[1..], x);
    } else {
      HeadIsThere(m[1..]);
    }
  }

  /** A canonical map is determined by its values: there is only one way to write it. */
  lemma {:induction false} CanonicalIsUnique<T>(m: RangeMap<T>, n: RangeMap<T>)
    requires Canonical(m) && Canonical(n) && forall x: real :: At(m, x) == At(n, x)
    ensures m == n
    decreases |m|
  {
    if m == [] {
      if n != [] {
        HeadIsThere(n);
      }
    } else if n == [] {
      HeadIsThere(m);
    } else {
      HeadsAgree(m, n);
      forall x: real
        ensures At(m[1..], x) == At(n[1..], x)
      {
        assert At(m, x) == At(n, x);
        if x < m[0].end {
          TailIsAfter(m, x);
          TailIsAfter(n, x);
        }
      }
      CanonicalIsUnique(m[1..], n[1..]);
      assert m == [m[0]] + m[1..] && n == [n[0]] + n[1..];
    }
  }

  lemma HeadsAgree<T>(m: RangeMap<T>, n: RangeMap<T>)
    requires Canonical(m) && Canonical(n) && m != [] && n != []
    requires forall x: real :: At(m, x) == At(n, x)
    ensures m[0] == n[0]
  {
    StartsAgree(m, n);
    StartsAgree(n, m);
    assert At(m, m[0].start) == At(n, m[0].start);
    EndsAgree(m, n);
    EndsAgree(n, m);
  }

  lemma StartsAgree<T>(m: RangeMap<T>, n: RangeMap<T>)
    requires Canonical(m) && Canonical(n) && m != [] && n != []
    requires forall x: real :: At(m, x) == At(n, x)
    ensures n[0].start <= m[0].start
  {
    HeadIsThere(m);
    assert At(m, m[0].start) == At(n, m[0].start);
    if m[0].start < n[0].start {
      NothingBefore(n, m[0].start);
    }
  }

  lemma EndsAgree<T>(m: RangeMap<T>, n: RangeMap<T>)
    requires Canonical(m) && Canonical(n) && m != [] && n != []
    requires m[0].start == n[0].start && m[0].value == n[0].value
    requires forall x: real :: At(m, x) == At(n, x)
    ensures n[0].end <= m[0].end
  {
    HeadEnds(m);
    assert At(m, m[0].end) == At(n, m[0].end);
  }

  // ---------------------------------------------------------------------------------------------
  // Insertion
  // ---------------------------------------------------------------------------------------------

  /** A range that could precede the map and the new range can precede the result. */
  lemma {:induction false} InsertFollows<T>(a: Span<T>, m: RangeMap<T>, s: real, e: real, v: T)
    requires s < e && Canonical(m)
    requires m != [] ==> Follows(a, m[0])
    requires a.end < s || (a.end == s && a.value != v)
    ensures Insert(m, s, e, v) != [] && Follows(a, Insert(m, s, e, v)[0])
    decreases |m|
  {
    if m != [] {
      var h, rest := m[0], m[1..];
      if h.end < s || (h.end == s && h.value != v) {
      } else if e < h.start || (e == h.start && h.value != v) {
      } else if h.value == v {
        InsertFollows(a, rest, Min(s, h.start), Max(e, h.end), v);
      } else if !(e < h.end) && !(h.start < s) {
        InsertFollows(a, rest, s, e, v);
      }
    }
  }

  lemma ConsCanonical<T>(a: Span<T>, m: RangeMap<T>)
    requires a.start < a.end && Canonical(m) && (m != [] ==> Follows(a, m[0]))
    ensures Canonical([a] + m)
  {
  }

  lemma {:induction false} InsertIsCanonical<T>(m: RangeMap<T>, s: real, e: real, v: T)
    requires s < e && Canonical(m)
    ensures Canonical(Insert(m, s, e, v))
    decreases |m|
  {
    if m == [] {
      ConsCanonical(Span(s, e, v), m);
    } else {
      var h, rest := m[0], m[1..];
      if h.end < s || (h.end == s && h.value != v) {
        InsertIsCanonical(rest, s, e, v);
        InsertFollows(h, rest, s, e, v);
        ConsCanonical(h, Insert(rest, s, e, v));
      } else if e < h.start || (e == h.start && h.value != v) {
        ConsCanonical(Span(s, e, v), m);
      } else if h.value == v {
        InsertIsCanonical(rest, Min(s, h.start), Max(e, h.end), v);
      } else if e < h.end {
        SplitIsCanonical(h, rest, s, e, v);
      } else {
        InsertIsCanonical(rest, s, e, v);
        if h.start < s {
          InsertFollows(Span(h.start, s, h.value), rest, s, e, v);
          ConsCanonical(Span(h.start, s, h.value), Insert(rest, s, e, v));
        } else {
          assert [] + Insert(rest, s, e, v) == Insert(rest, s, e, v);
        }
      }
    }
  }

  /** The new range falls inside an old one of another value. */
  lemma SplitIsCanonical<T>(h: Span<T>, rest: RangeMap<T>, s: real, e: real, v: T)
    requires s < e < h.end && h.value != v && Canonical(rest) && (rest != [] ==> Follows(h, rest[0]))
    ensures var left := if h.start < s then [Span(h.start, s, h.value)] else [];
            Canonical(left + [Span(s, e, v), Span(e, h.end, h.value)] + rest)
  {
  }

  lemma AtCons<T>(a: Span<T>, m: RangeMap<T>, x: real)
    ensures At([a] + m, x) == if Covers(a, x) then Some(a.value) else At(m, x)
  {
  }

  /** Insertion, pointwise: the new value on the new range, the old ones elsewhere. */
  lemma {:induction false} InsertAt<T>(m: RangeMap<T>, s: real, e: real, v: T, x: real)
    requires s < e && Canonical(m)
    ensures At(Insert(m, s, e, v), x) == if s <= x < e then Some(v) else At(m, x)
    decreases |m|
  {
    if m != [] {
      var h, rest := m[0], m[1..];
      if h.end < s || (h.end == s && h.value != v) {
        InsertAt(rest, s, e, v, x);
        AtCons(h, Insert(rest, s, e, v), x);
      } else if e < h.start || (e == h.start && h.value != v) {
        AtCons(Span(s, e, v), m, x);
      } else if h.value == v {
        InsertAt(rest, Min(s, h.start), Max(e, h.end), v, x);
      } else {
        InsertOverAt(m, s, e, v, x);
      }
    }
  }

  lemma InsertOverAt<T>(m: RangeMap<T>, s: real, e: real, v: T, x: real)
    requires s < e && Canonical(m) && m != [] && m[0].value != v && s < m[0].end && m[0].start < e
    ensures At(Insert(m, s, e, v), x) == if s <= x < e then Some(v) else At(m, x)
    decreases |m|, 0
  {
    var h, rest := m[0], m[1..];
    var left := if h.start < s then [Span(h.start, s, h.value)] else [];
    if x < h.end {
      TailIsAfter(m, x);
    }
    if e < h.end {
      var right := [Span(e, h.end, h.value)] + rest;
      AtCons(Span(e, h.end, h.value), rest, x);
      AtCons(Span(s, e, v), right, x);
      AtLeft(left, [Span(s, e, v)] + right, x);
      assert left + [Span(s, e, v), Span(e, h.end, h.value)] + rest == left + ([Span(s, e, v)] + right);
    } else {
      InsertAt(rest, s, e, v, x);
      AtLeft(left, Insert(rest, s, e, v), x);
    }
  }

  lemma AtLeft<T>(left: RangeMap<T>, m: RangeMap<T>, x: real)
    requires |left| <= 1
    ensures At(left + m, x) == if left != [] && Covers(left[0], x) then Some(left[0].value) else At(m, x)
  {
    if left == [] {
      assert left + m == m;
    } else {
      assert left == [left[0]];
      AtCons(left[0], m, x);
    }
  }
}
