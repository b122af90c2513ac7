/** All the routes of an infrastructure: one search from each buffer stop, then one from each detector. */
module RouteGeneration {
  import opened Options
  import opened Sequences
  import opened RouteGraph
  import opened RouteSearch
  import opened SearchOrder
  import Decimals

  function Starts(infra: Infra): seq<Node> {
    seq(|infra.bufferStops|, i requires 0 <= i < |infra.bufferStops| => BufferStop(infra.bufferStops[i].id))
    + seq(|infra.detectors|, i requires 0 <= i < |infra.detectors| => Detector(infra.detectors[i].id))
  }

  /** One start for each buffer stop, then one for each detector, in the order of the file. */
  lemma StartsInOrder(infra: Infra)
    ensures var starts, n := Starts(infra), |infra.bufferStops|;
            && |starts| == n + |infra.detectors|
            && (forall i :: 0 <= i < n ==> starts[i] == BufferStop(infra.bufferStops[i].id))
            && (forall i :: 0 <= i < |infra.detectors| ==> starts[n + i] == Detector(infra.detectors[i].id))
  {
  }

  /** `parts[i]` holds the routes from the `i`-th start. */
  ghost predicate Parts(g: Network, starts: seq<Node>, parts: seq<seq<Route>>)
    requires Coherent(g)
  {
    && |parts| <= |starts|
    && (forall i :: 0 <= i < |parts| ==> !starts[i].TrackEnd? && RoutesFrom(g, starts[i], parts[i]))
  }

  /**
   Generates the routes, or fails on a switch of unknown type or with a missing port.  `order` is the order
   in which the tracks with detectors were loaded.
   */
  method Routes(infra: Infra)
    returns (r: Option<seq<Route>>, ghost order: seq<Identifier>, ghost parts: seq<seq<Route>>)
    ensures r.Some? <==> SwitchesOk(infra)
    ensures r.Some? ==> TrackOrder(infra, order)
    ensures Coherent(Build(DeclaredEdges(infra, order)))
    ensures r.Some? ==> r.value == Flatten(parts) && |parts| == |Starts(infra)|
    ensures r.Some? ==> Parts(Build(DeclaredEdges(infra, order)), Starts(infra), parts)
  {
    var graph := new Graph();
    var ok;
    ok, order := graph.Load(infra);
    DeclaredGraphIsCoherent(infra, order);
    parts := [];
    if !ok {
      return None, order, parts;
    }
    var g := Network(graph.successors, graph.edges);
    var starts := Starts(infra);
    var result := [];
    for n := 0 to |starts|
      invariant Coherent(g) && |parts| == n && Parts(g, starts, parts)
      invariant result == Flatten(parts)
    {
      var part := OneToAllRoutes(g, starts[n]);
      PartsStep(g, starts, parts, part);
      FlattenSnoc(parts, part);
      result, parts := result + part, parts + [part];
    }
    r := Some(result);
  }

  lemma PartsStep(g: Network, starts: seq<Node>, parts: seq<seq<Route>>, part: seq<Route>)
    requires Coherent(g) && Parts(g, starts, parts) && |parts| < |starts|
    requires !starts[|parts|].TrackEnd? && RoutesFrom(g, starts[|parts|], part)
    ensures Parts(g, starts, parts + [part])
  {
    forall i | 0 <= i < |parts| + 1
      ensures !starts[i].TrackEnd? && RoutesFrom(g, starts[i], (parts + [part])[i])
    {
      if i < |parts| {
        assert (parts + [part])[i] == parts[i];
      }
    }
  }

  // ---------------------------------------------------------------------------------------------
  // What a user of the routes can rely on
  // ---------------------------------------------------------------------------------------------

  lemma SearchOf(g: Network, start: Node, routes: seq<Route>) returns (parent: map<Node, Node>, h: Record)
    requires Coherent(g) && RoutesFrom(g, start, routes)
    ensures Searched(g, start, routes, parent, h)
  {
    ghost var visits;
    parent, h, visits :| Searched(g, start, routes, parent, h) && Timely(g, start, parent, visits, [], h.ends);
  }

  /** Every route generated is a simple path of the graph with the labels of that path. */
  lemma EveryRouteIsAPath(g: Network, start: Node, routes: seq<Route>, n: nat)
    requires Coherent(g) && RoutesFrom(g, start, routes) && n < |routes|
    ensures exists end, p :: IsRoutePath(g, start, end, p) && Describes(g, routes[n], p, n)
  {
    var parent, h := SearchOf(g, start, routes);
    assert IsRoutePath(g, start, h.ends[n], h.trails[n]);
    assert Describes(g, routes[n], h.trails[n], n);
  }

  /** No two consecutive edges of a route are switch edges, and no detector follows a detector or a track. */
  lemma RoutePathNeverTurnsBack(g: Network, start: Node, end: Node, p: seq<Node>, i: nat)
    requires IsRoutePath(g, start, end, p) && 0 < i < |p| - 1
    ensures !(EdgeOn(g, p, i - 1).Switch? && EdgeOn(g, p, i).Switch?)
    ensures EdgeOn(g, p, i).ToDetector? ==> !EdgeOn(g, p, i - 1).FromDetector? && !EdgeOn(g, p, i - 1).Track?
    ensures EdgeOn(g, p, i - 1).FromDetector? ==> !EdgeOn(g, p, i).Track?
  {
    assert NoUTurn(g, p, i);
  }

  /** Two routes of one start lead to different waypoints. */
  lemma OneRouteAWaypoint(g: Network, start: Node, routes: seq<Route>, m: nat, n: nat)
    requires Coherent(g) && !start.TrackEnd? && RoutesFrom(g, start, routes) && m < n < |routes|
    ensures routes[m].exitPoint != routes[n].exitPoint
  {
    var parent, h := SearchOf(g, start, routes);
    assert h.ends[m] != h.ends[n];
    RouteEnds(g, start, routes, parent, h, m);
    RouteEnds(g, start, routes, parent, h, n);
  }

  lemma RouteEnds(g: Network, start: Node, routes: seq<Route>, parent: map<Node, Node>, h: Record, n: nat)
    requires Coherent(g) && !start.TrackEnd? && Searched(g, start, routes, parent, h) && n < |routes|
    ensures !h.ends[n].TrackEnd? && routes[n].exitPoint == WaypointOf(h.ends[n])
    ensures routes[n].entryPoint == WaypointOf(start) && routes[n].id == RouteId(start.id, n)
  {
  }

  /** A route names its two ends as what they are. */
  lemma RouteNamesItsEnds(g: Network, start: Node, routes: seq<Route>, parent: map<Node, Node>, h: Record, n: nat)
    requires Coherent(g) && !start.TrackEnd? && Searched(g, start, routes, parent, h) && n < |routes|
    ensures var r, end := routes[n], h.ends[n];
            && start == (if r.entryPoint.BufferStopAt? then BufferStop(r.entryPoint.id) else Detector(r.entryPoint.id))
            && end == (if r.exitPoint.BufferStopAt? then BufferStop(r.exitPoint.id) else Detector(r.exitPoint.id))
  {
    RouteEnds(g, start, routes, parent, h, n);
  }

  /** Two trails part after index `c`. */
  ghost predicate Part(p: seq<Node>, q: seq<Node>, c: nat) {
    c + 1 < |p| && c + 1 < |q| && p[c] == q[c] && p[c + 1] != q[c + 1]
  }

  /** A trail goes down the tree of the search to its end. */
  ghost predicate LeadsTo(parent: map<Node, Node>, p: seq<Node>, end: Node) {
    p != [] && p[|p| - 1] == end && Descends(parent, p, 0)
  }

  lemma WalkDescends(parent: map<Node, Node>, start: Node, end: Node, p: seq<Node>)
    requires Walk(parent, start, end, p)
    ensures LeadsTo(parent, p, end)
  {
    forall k | 0 < k < |p|
      ensures ChildOf(parent, p[k], p[k - 1])
    {
      assert Linked(parent, p, k);
    }
  }

  lemma TrailDescends(g: Network, start: Node, routes: seq<Route>, parent: map<Node, Node>, h: Record, n: nat)
    requires Coherent(g) && Searched(g, start, routes, parent, h) && n < |routes|
    ensures n < |h.trails| == |h.ends| && LeadsTo(parent, h.trails[n], h.ends[n])
  {
    WalkDescends(parent, start, h.ends[n], h.trails[n]);
  }

  lemma NearerIsEarlier(g: Network, start: Node, parent: map<Node, Node>, visits: map<Node, nat>,
                        p: seq<Node>, q: seq<Node>, c: nat)
    requires Ordered(g, start, parent, visits, []) && Descends(parent, p, 0) && Descends(parent, q, 0)
    requires Part(p, q, c) && c + 2 == |p| && c + 2 < |q|
    ensures When(visits, p[|p| - 1]) < When(visits, q[|q| - 1])
  {
    assert ChildOf(parent, p[c + 1], p[c]) && ChildOf(parent, q[c + 1], q[c]) && ChildOf(parent, q[c + 2], q[c + 1]);
    DescendantIsLater(start, parent, visits, q, c + 2, |q| - 1);
  }

  /** Where two routes part and both go on, the first of them took the later one of the two successors. */
  lemma LastBranchFirst(g: Network, start: Node, routes: seq<Route>, parent: map<Node, Node>, h: Record,
                        visits: map<Node, nat>, m: nat, n: nat, c: nat)
    requires Coherent(g) && Searched(g, start, routes, parent, h) && Timely(g, start, parent, visits, [], h.ends)
    requires m < n < |routes| && Part(h.trails[m], h.trails[n], c)
    requires c + 2 < |h.trails[m]| && c + 2 < |h.trails[n]|
    ensures Precedes(g, h.trails[m][c], h.trails[n][c + 1], h.trails[m][c + 1])
  {
    TrailDescends(g, start, routes, parent, h, m);
    TrailDescends(g, start, routes, parent, h, n);
    InTurn(g, start, parent, visits, h.ends, h.trails, m, n, c);
  }

  lemma InTurn(g: Network, start: Node, parent: map<Node, Node>, visits: map<Node, nat>, ends: seq<Node>,
               trails: seq<seq<Node>>, m: nat, n: nat, c: nat)
    requires Timely(g, start, parent, visits, [], ends) && m < |ends| == |trails| && n < |ends|
    requires LeadsTo(parent, trails[m], ends[m]) && LeadsTo(parent, trails[n], ends[n]) && Part(trails[m], trails[n], c)
    requires c + 2 < |trails[n]|
    ensures c + 2 < |trails[m]| && m < n ==> Precedes(g, trails[m][c], trails[n][c + 1], trails[m][c + 1])
    ensures c + 2 == |trails[m]| ==> m < n
  {
    if c + 2 < |trails[m]| {
      BranchesInTurn(g, start, parent, visits, trails[m], trails[n], c);
    } else {
      NearerIsEarlier(g, start, parent, visits, trails[m], trails[n], c);
    }
  }

  /** Where two routes part, the one that ends right there comes before the one that goes on. */
  lemma NearestEndFirst(g: Network, start: Node, routes: seq<Route>, parent: map<Node, Node>, h: Record,
                        visits: map<Node, nat>, m: nat, n: nat, c: nat)
    requires Coherent(g) && Searched(g, start, routes, parent, h) && Timely(g, start, parent, visits, [], h.ends)
    requires m < |routes| && n < |routes| && Part(h.trails[m], h.trails[n], c)
    requires c + 2 == |h.trails[m]| && c + 2 < |h.trails[n]|
    ensures m < n
  {
    TrailDescends(g, start, routes, parent, h, m);
    TrailDescends(g, start, routes, parent, h, n);
    InTurn(g, start, parent, visits, h.ends, h.trails, m, n, c);
  }

  /** Where two routes part and both end, they are numbered in the order of the successors. */
  lemma NeighboursInLine(g: Network, start: Node, routes: seq<Route>, parent: map<Node, Node>, h: Record,
                         visits: map<Node, nat>, m: nat, n: nat, c: nat)
    requires Coherent(g) && Searched(g, start, routes, parent, h) && Timely(g, start, parent, visits, [], h.ends)
    requires m < n < |routes| && Part(h.trails[m], h.trails[n], c)
    requires c + 2 == |h.trails[m]| == |h.trails[n]|
    ensures Precedes(g, h.trails[m][c], h.trails[m][c + 1], h.trails[n][c + 1])
  {
    TrailDescends(g, start, routes, parent, h, m);
    TrailDescends(g, start, routes, parent, h, n);
    EndsInLine(g, start, parent, visits, h.ends, h.trails, m, n, c);
  }

  lemma EndsInLine(g: Network, start: Node, parent: map<Node, Node>, visits: map<Node, nat>, ends: seq<Node>,
                   trails: seq<seq<Node>>, m: nat, n: nat, c: nat)
    requires Timely(g, start, parent, visits, [], ends) && m < n < |ends| == |trails|
    requires LeadsTo(parent, trails[m], ends[m]) && LeadsTo(parent, trails[n], ends[n]) && Part(trails[m], trails[n], c)
    requires c + 2 == |trails[m]| == |trails[n]|
    ensures Precedes(g, trails[m][c], trails[m][c + 1], trails[n][c + 1])
  {
    assert ChildOf(parent, ends[m], trails[m][c]) && ChildOf(parent, ends[n], trails[n][c]);
    assert When(visits, ends[m]) < When(visits, ends[n]);
  }

  /** The dash before the count is the last one. */
  lemma LastDash(a: Identifier, m: nat, i: nat)
    requires i < |RouteId(a, m).text| && RouteId(a, m).text[i] == '-'
    ensures i <= |a.text|
  {
    Decimals.PrintIsDigits(m);
    var x := Decimals.Print(m);
    assert forall j :: 0 <= j < |x| ==> RouteId(a, m).text[|a.text| + 1 + j] == x[j];
  }

  /** The entry point and the count can be read back from a route id. */
  lemma RouteIdIsInjective(a: Identifier, m: nat, b: Identifier, n: nat)
    requires RouteId(a, m) == RouteId(b, n)
    ensures a == b && m == n
  {
    var s, x, y := RouteId(a, m).text, Decimals.Print(m), Decimals.Print(n);
    assert s == a.text + "-" + x && s == b.text + "-" + y;
    LastDash(a, m, |b.text|);
    LastDash(b, n, |a.text|);
    assert a.text == s[..|a.text|] == b.text;
    assert x == s[|a.text| + 1..] == y;
    Decimals.PrintRoundTrip(m);
    Decimals.PrintRoundTrip(n);
  }

  lemma {:induction false} FlattenedFrom<T>(parts: seq<seq<T>>, k: nat) returns (i: nat, n: nat)
    requires k < |Flatten(parts)|
    ensures i < |parts| && n < |parts[i]| && Flatten(parts)[k] == parts[i][n]
  {
    var init := parts[..|parts| - 1];
    assert parts == init + [parts[|parts| - 1]];
    FlattenSnoc(init, parts[|parts| - 1]);
    if k < |Flatten(init)| {
      i, n := FlattenedFrom(init, k);
    } else {
      i, n := |parts| - 1, k - |Flatten(init)|;
    }
  }

  /** The routes of each start are numbered from zero. */
  ghost predicate Numbered(starts: seq<Node>, parts: seq<seq<Route>>) {
    && |parts| <= |starts|
    && (forall i :: 0 <= i < |parts| ==> !starts[i].TrackEnd?)
    && (forall i, n :: 0 <= i < |parts| && 0 <= n < |parts[i]| ==> parts[i][n].id == RouteId(starts[i].id, n))
  }

  lemma PartsAreNumbered(g: Network, starts: seq<Node>, parts: seq<seq<Route>>)
    requires Coherent(g) && Parts(g, starts, parts)
    ensures Numbered(starts, parts)
  {
  }

  /** No identifier is shared by two starts that both have a route. */
  ghost predicate IdsApart(starts: seq<Node>, parts: seq<seq<Route>>)
    requires Numbered(starts, parts)
  {
    forall a, b :: 0 <= a < b < |parts| && parts[a] != [] && parts[b] != [] ==> starts[a].id != starts[b].id
  }

  ghost predicate UniqueIds(routes: seq<Route>) {
    forall j, k :: 0 <= j < k < |routes| ==> routes[j].id != routes[k].id
  }

  lemma {:induction false} NumberedIdsAreUnique(starts: seq<Node>, parts: seq<seq<Route>>, j: nat, k: nat)
    requires Numbered(starts, parts) && IdsApart(starts, parts) && j < k < |Flatten(parts)|
    ensures Flatten(parts)[j].id != Flatten(parts)[k].id
  {
    var init, last := parts[..|parts| - 1], |parts| - 1;
    assert parts == init + [parts[last]];
    FlattenSnoc(init, parts[last]);
    if k < |Flatten(init)| {
      NumberedIdsAreUnique(starts, init, j, k);
    } else {
      var n := k - |Flatten(init)|;
      assert Flatten(parts)[k] == parts[last][n];
      var i: nat, m: nat;
      if j < |Flatten(init)| {
        i, m := FlattenedFrom(init, j);
      } else {
        i, m := last, j - |Flatten(init)|;
      }
      if RouteId(starts[i].id, m) == RouteId(starts[last].id, n) {
        RouteIdIsInjective(starts[i].id, m, starts[last].id, n);
      }
    }
  }

  /** Where the first route of a part ends up. */
  lemma FlattenedAt<T>(parts: seq<seq<T>>, i: nat)
    requires i < |parts| && parts[i] != []
    ensures |Flatten(parts[..i])| < |Flatten(parts)| && Flatten(parts)[|Flatten(parts[..i])|] == parts[i][0]
  {
    assert parts == parts[..i] + ([parts[i]] + parts[i + 1..]);
    FlattenConcat(parts[..i], [parts[i]] + parts[i + 1..]);
    assert ([parts[i]] + parts[i + 1..])[0] == parts[i];
  }

  /** Two starts that share an identifier and have routes both number a route zero. */
  lemma SharedIdClashes(starts: seq<Node>, parts: seq<seq<Route>>, a: nat, b: nat)
    requires Numbered(starts, parts) && a < b < |parts| && parts[a] != [] && parts[b] != []
    requires starts[a].id == starts[b].id
    ensures !UniqueIds(Flatten(parts))
  {
    FlattenedAt(parts[..b], a);
    assert parts[..b][..a] == parts[..a];
    FlattenedAt(parts, a);
    FlattenedAt(parts, b);
    var j, k := |Flatten(parts[..a])|, |Flatten(parts[..b])|;
    assert Flatten(parts)[j].id == Flatten(parts)[k].id;
  }

  lemma ApartIdsAreUnique(starts: seq<Node>, parts: seq<seq<Route>>)
    requires Numbered(starts, parts) && IdsApart(starts, parts)
    ensures UniqueIds(Flatten(parts))
  {
    forall j, k | 0 <= j < k < |Flatten(parts)|
      ensures Flatten(parts)[j].id != Flatten(parts)[k].id
    {
      NumberedIdsAreUnique(starts, parts, j, k);
    }
  }

  /** Route ids are unique over all starts if and only if no two starts with routes share an identifier. */
  lemma RouteIdsAreUniqueIff(g: Network, starts: seq<Node>, parts: seq<seq<Route>>)
    requires Coherent(g) && Parts(g, starts, parts)
    ensures Numbered(starts, parts) && (UniqueIds(Flatten(parts)) <==> IdsApart(starts, parts))
  {
    PartsAreNumbered(g, starts, parts);
    if IdsApart(starts, parts) {
      ApartIdsAreUnique(starts, parts);
    } else {
      var a, b :| 0 <= a < b < |parts| && parts[a] != [] && parts[b] != [] && starts[a].id == starts[b].id;
      SharedIdClashes(starts, parts, a, b);
    }
  }
}
