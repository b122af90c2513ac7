/**
 The search of the routes that leave a detector or a buffer stop: a depth-first walk that keeps a parent for
 every node it visits, and the reconstruction of each route by walking the parents back.
 */
module RouteSearch {
  import opened Options
  import opened Sequences
  import opened RouteGraph
  import opened SearchOrder
  import Decimals

  datatype Waypoint = BufferStopAt(id: Identifier) | DetectorAt(id: Identifier)

  datatype Route = Route(
    id: Identifier,
    entryPoint: Waypoint,
    entryPointDirection: Direction,
    exitPoint: Waypoint,
    switchesDirections: map<Identifier, Identifier>)

  function WaypointOf(n: Node): Waypoint
    requires !n.TrackEnd?
  {
    match n
    case BufferStop(id) => BufferStopAt(id)
    case Detector(id) => DetectorAt(id)
  }

  function RouteId(entry: Identifier, count: nat): Identifier {
    Identifier(entry.text + "-" + Decimals.Print(count))
  }

  // ---------------------------------------------------------------------------------------------
  // Which edge may follow which
  // ---------------------------------------------------------------------------------------------

  predicate SwitchUTurn(edge: EdgeType, previous: Option<EdgeType>) {
    edge.Switch? && previous.Some? && previous.value.Switch?
  }

  predicate DetectorUTurn(edge: EdgeType, previous: Option<EdgeType>) {
    || ((edge.Track? || edge.ToDetector?) && previous.Some? && previous.value.FromDetector?)
    || (edge.ToDetector? && previous.Some? && (previous.value.Track? || previous.value.FromDetector?))
  }

  predicate UTurn(edge: EdgeType, previous: Option<EdgeType>) {
    SwitchUTurn(edge, previous) || DetectorUTurn(edge, previous)
  }

  /** The edge by which the search reached `current`. */
  function PreviousEdge(g: Network, parent: map<Node, Node>, current: Node): Option<EdgeType> {
    if current in parent && (parent[current], current) in g.edges
    then Some(g.edges[(parent[current], current)]) else None
  }

  predicate ValidSuccessor(g: Network, start: Node, current: Node, succ: Node, parent: map<Node, Node>)
    requires (current, succ) in g.edges
  {
    && succ !in parent
    && succ != start
    && !UTurn(g.edges[(current, succ)], PreviousEdge(g, parent, current))
  }

  // ---------------------------------------------------------------------------------------------
  // Routes as paths
  // ---------------------------------------------------------------------------------------------

  /** The graph has the `i`-th edge of the path. */
  ghost predicate Joined(g: Network, p: seq<Node>, i: nat)
    requires i < |p| - 1
  {
    (p[i], p[i + 1]) in g.edges
  }

  ghost predicate IsPath(g: Network, p: seq<Node>) {
    forall i :: 0 <= i < |p| - 1 ==> Joined(g, p, i)
  }

  /** The `i`-th edge of a path. */
  ghost function EdgeOn(g: Network, p: seq<Node>, i: nat): EdgeType
    requires IsPath(g, p) && i < |p| - 1
  {
    assert Joined(g, p, i);
    g.edges[(p[i], p[i + 1])]
  }

  ghost predicate NoUTurn(g: Network, p: seq<Node>, i: nat)
    requires IsPath(g, p) && 0 < i < |p| - 1
  {
    !UTurn(EdgeOn(g, p, i), Some(EdgeOn(g, p, i - 1)))
  }

  /** A simple path of the graph, through track endpoints only, that never makes a U-turn. */
  ghost predicate IsRoutePath(g: Network, start: Node, end: Node, p: seq<Node>) {
    && 2 <= |p| && p[0] == start && p[|p| - 1] == end
    && IsPath(g, p)
    && Distinct(p)
    && (forall i :: 0 < i < |p| - 1 ==> p[i].TrackEnd?)
    && (forall i :: 0 < i < |p| - 1 ==> NoUTurn(g, p, i))
  }

  lemma TailIsPath(g: Network, p: seq<Node>)
    requires IsPath(g, p) && 1 <= |p|
    ensures IsPath(g, p[1..])
  {
    forall i | 0 <= i < |p[1..]| - 1
      ensures Joined(g, p[1..], i)
    {
      assert Joined(g, p, i + 1);
    }
  }

  /** The port by which the path first crosses a switch, if it does. */
  ghost function FirstPort(g: Network, p: seq<Node>, id: Identifier): Option<Identifier>
    requires IsPath(g, p)
  {
    if |p| < 2 then None
    else
      TailIsPath(g, p);
      if EdgeOn(g, p, 0).Switch? && EdgeOn(g, p, 0).id == id then Some(EdgeOn(g, p, 0).port)
      else FirstPort(g, p[1..], id)
  }

  ghost predicate Leaves(kind: EdgeType, direction: Direction) {
    kind == FromDetector(direction) || kind == Buffer(direction)
  }

  /** The route is the `count`-th one of its entry point and its labels are those of the path. */
  ghost predicate Describes(g: Network, r: Route, p: seq<Node>, count: nat) {
    && 2 <= |p| && IsPath(g, p) && !p[0].TrackEnd? && !p[|p| - 1].TrackEnd?
    && r.entryPoint == WaypointOf(p[0])
    && r.exitPoint == WaypointOf(p[|p| - 1])
    && r.id == RouteId(r.entryPoint.id, count)
    && Leaves(EdgeOn(g, p, 0), r.entryPointDirection)
    && forall id :: Ports(r.switchesDirections, id) == FirstPort(g, p, id)
  }

  // ---------------------------------------------------------------------------------------------
  // The tree of parents
  // ---------------------------------------------------------------------------------------------

  ghost predicate Linked(parent: map<Node, Node>, p: seq<Node>, i: nat)
    requires 0 < i < |p|
  {
    p[i] in parent && parent[p[i]] == p[i - 1]
  }

  /** `p` is the way back from `end` to `start` by the parents. */
  ghost predicate Walk(parent: map<Node, Node>, start: Node, end: Node, p: seq<Node>) {
    && 1 <= |p| && p[0] == start && p[|p| - 1] == end
    && forall i :: 0 < i < |p| ==> Linked(parent, p, i)
  }

  /** The search entered `v` by an edge it was allowed to take. */
  ghost predicate Entered(g: Network, start: Node, parent: map<Node, Node>, v: Node)
    requires v in parent
  {
    var u := parent[v];
    && (u, v) in g.edges
    && (u == start || (u in parent && u.TrackEnd?))
    && !UTurn(g.edges[(u, v)], PreviousEdge(g, parent, u))
  }

  ghost predicate IsTree(g: Network, start: Node, parent: map<Node, Node>) {
    start !in parent && forall v :: v in parent ==> Entered(g, start, parent, v)
  }

  /** No node repeats on a way back, because the start has no parent. */
  lemma {:induction false} WalkHasNoCycle(parent: map<Node, Node>, start: Node, end: Node, p: seq<Node>, i: nat, j: nat)
    requires Walk(parent, start, end, p) && start !in parent && i < j < |p|
    ensures p[i] != p[j]
    decreases i
  {
    assert Linked(parent, p, j);
    if i > 0 && p[i] == p[j] {
      assert Linked(parent, p, i);
      WalkHasNoCycle(parent, start, end, p, i - 1, j - 1);
    }
  }

  /** Every way back of a tree is a route path, read at the end of the search as when it was found. */
  lemma WalkIsRoutePath(g: Network, start: Node, parent: map<Node, Node>, end: Node, p: seq<Node>)
    requires IsTree(g, start, parent) && Walk(parent, start, end, p) && end != start
    ensures IsRoutePath(g, start, end, p)
  {
    assert 2 <= |p|;
    forall i | 0 <= i < |p| - 1
      ensures Joined(g, p, i)
      ensures i > 0 ==> p[i].TrackEnd?
    {
      assert Linked(parent, p, i + 1);
      assert Entered(g, start, parent, p[i + 1]);
      assert i > 0 ==> Linked(parent, p, i);
    }
    forall i, j | 0 <= i < j < |p|
      ensures p[i] != p[j]
    {
      WalkHasNoCycle(parent, start, end, p, i, j);
    }
    forall i | 0 < i < |p| - 1
      ensures NoUTurn(g, p, i)
    {
      assert Linked(parent, p, i) && Linked(parent, p, i + 1);
      assert Joined(g, p, i) && Joined(g, p, i - 1);
      assert Entered(g, start, parent, p[i + 1]);
    }
  }

  // ---------------------------------------------------------------------------------------------
  // Rebuilding a route
  // ---------------------------------------------------------------------------------------------

  function Ports(m: map<Identifier, Identifier>, id: Identifier): Option<Identifier> {
    if id in m then Some(m[id]) else None
  }

  /** The recorded ports are those of the first crossings on the rest of the path. */
  ghost predicate PortsFrom(g: Network, p: seq<Node>, i: nat, m: map<Identifier, Identifier>)
    requires IsPath(g, p) && i < |p|
  {
    SuffixIsPath(g, p, i);
    forall id :: Ports(m, id) == FirstPort(g, p[i..], id)
  }

  lemma SuffixIsPath(g: Network, p: seq<Node>, i: nat)
    requires IsPath(g, p) && i <= |p|
    ensures IsPath(g, p[i..])
  {
    forall k | 0 <= k < |p[i..]| - 1
      ensures Joined(g, p[i..], k)
    {
      assert Joined(g, p, i + k);
    }
  }

  /** Walking back over one more edge: a switch crossed there is nearer the entry and wins. */
  lemma PortsStep(g: Network, p: seq<Node>, i: nat, m: map<Identifier, Identifier>, m': map<Identifier, Identifier>)
    requires IsPath(g, p) && 0 < i < |p| && PortsFrom(g, p, i, m)
    requires var edge := EdgeOn(g, p, i - 1);
             m' == if edge.Switch? then m[edge.id := edge.port] else m
    ensures PortsFrom(g, p, i - 1, m')
  {
    SuffixIsPath(g, p, i);
    SuffixIsPath(g, p, i - 1);
    var q := p[i - 1..];
    assert q[1..] == p[i..] && q[0] == p[i - 1] && q[1] == p[i];
    assert EdgeOn(g, q, 0) == EdgeOn(g, p, i - 1);
    forall id
      ensures Ports(m', id) == FirstPort(g, q, id)
    {
      assert Ports(m, id) == FirstPort(g, p[i..], id);
    }
  }

  /** The walk from the end back to the entry; both "unreachable" arms of the program are dead. */
  method BuildRoute(g: Network, count: nat, end: Node, pred: map<Node, Node>, ghost p: seq<Node>) returns (r: Route)
    requires Coherent(g) && IsPath(g, p) && 2 <= |p|
    requires Walk(pred, p[0], end, p) && p[0] !in pred
    requires !p[0].TrackEnd? && !end.TrackEnd?
    ensures Describes(g, r, p, count)
  {
    var switchesDirections: map<Identifier, Identifier> := map[];
    var lastDirection := StartToStop;
    var current := end;
    ghost var i := |p| - 1;
    assert PortsFrom(g, p, i, switchesDirections);
    while current in pred
      invariant 0 <= i < |p| && current == p[i]
      invariant PortsFrom(g, p, i, switchesDirections)
      invariant i == 0 ==> Leaves(EdgeOn(g, p, 0), lastDirection)
      decreases i
    {
      var previous := pred[current];
      assert i > 0 && Linked(pred, p, i) && Joined(g, p, i - 1);
      ghost var before := switchesDirections;
      match g.edges[(previous, current)] {
        case Switch(id, port) => switchesDirections := switchesDirections[id := port];
        case FromDetector(direction) => lastDirection := direction;
        case Buffer(direction) => lastDirection := direction;
        case _ =>
      }
      PortsStep(g, p, i, before, switchesDirections);
      current := previous;
      i := i - 1;
    }
    assert i > 0 ==> Linked(pred, p, i);
    assert p[0..] == p;
    assert forall id :: Ports(switchesDirections, id) == FirstPort(g, p, id);
    var entryPoint := WaypointOf(current);
    r := Route(RouteId(entryPoint.id, count), entryPoint, lastDirection, WaypointOf(end), switchesDirections);
  }

  // ---------------------------------------------------------------------------------------------
  // The search
  // ---------------------------------------------------------------------------------------------

  /** Every visited node has its way back to the start. */
  ghost predicate Rooted(g: Network, start: Node, parent: map<Node, Node>, paths: map<Node, seq<Node>>) {
    && IsTree(g, start, parent)
    && paths.Keys == parent.Keys + {start}
    && forall v :: v in paths ==> Walk(parent, start, v, paths[v])
  }

  /** One trail for each detector and buffer stop visited, in the order of the visits. */
  ghost predicate Reached(parent: map<Node, Node>, paths: map<Node, seq<Node>>, ends: seq<Node>,
                          trails: seq<seq<Node>>)
  {
    && |ends| == |trails| && Distinct(ends)
    && (forall v :: v in ends <==> v in parent && !v.TrackEnd?)
    && forall n :: 0 <= n < |ends| ==> ends[n] in paths && trails[n] == paths[ends[n]]
  }

  ghost predicate Labelled(g: Network, trails: seq<seq<Node>>, routes: seq<Route>) {
    && |trails| == |routes|
    && forall n :: 0 <= n < |routes| ==> Describes(g, routes[n], trails[n], n)
  }

  /** The search goes on from the start and from the track endpoints it visits. */
  predicate Expandable(start: Node, parent: map<Node, Node>, u: Node) {
    u == start || (u in parent && u.TrackEnd?)
  }

  /** Nothing is left to do about the edge from `u` to `v`. */
  ghost predicate Settled(g: Network, start: Node, parent: map<Node, Node>, u: Node, v: Node)
    requires (u, v) in g.edges
  {
    v in parent || v == start || UTurn(g.edges[(u, v)], PreviousEdge(g, parent, u))
  }

  ghost predicate Saturated(g: Network, start: Node, parent: map<Node, Node>, u: Node)
    requires Coherent(g)
  {
    u in g.successors ==> forall v :: v in g.successors[u] ==> Settled(g, start, parent, u, v)
  }

  ghost predicate Pending(g: Network, start: Node, parent: map<Node, Node>, stack: seq<Node>, u: Node)
    requires Coherent(g)
  {
    Expandable(start, parent, u) ==> u in stack || Saturated(g, start, parent, u)
  }

  lemma EnterKeepsTree(g: Network, start: Node, parent: map<Node, Node>, current: Node, succ: Node)
    requires IsTree(g, start, parent) && Expandable(start, parent, current)
    requires (current, succ) in g.edges && ValidSuccessor(g, start, current, succ, parent)
    ensures IsTree(g, start, parent[succ := current])
  {
  }

  lemma EnterKeepsRooted(g: Network, start: Node, parent: map<Node, Node>, paths: map<Node, seq<Node>>,
                         current: Node, succ: Node)
    requires Rooted(g, start, parent, paths) && Expandable(start, parent, current)
    requires (current, succ) in g.edges && ValidSuccessor(g, start, current, succ, parent)
    ensures current in paths
    ensures Rooted(g, start, parent[succ := current], paths[succ := paths[current] + [succ]])
  {
    EnterKeepsTree(g, start, parent, current, succ);
    var parent', paths' := parent[succ := current], paths[succ := paths[current] + [succ]];
    forall v | v in paths'
      ensures Walk(parent', start, v, paths'[v])
    {
      if v == succ {
        WalkExtends(parent, start, current, succ, paths[current]);
      } else {
        WalkStays(parent, start, v, paths[v], current, succ);
      }
    }
  }

  lemma WalkStays(parent: map<Node, Node>, start: Node, v: Node, p: seq<Node>, current: Node, succ: Node)
    requires Walk(parent, start, v, p) && succ !in parent
    ensures Walk(parent[succ := current], start, v, p)
  {
    var parent' := parent[succ := current];
    forall i | 0 < i < |p|
      ensures Linked(parent', p, i)
    {
      assert Linked(parent, p, i);
    }
  }

  lemma WalkExtends(parent: map<Node, Node>, start: Node, current: Node, succ: Node, p: seq<Node>)
    requires Walk(parent, start, current, p) && succ !in parent
    ensures Walk(parent[succ := current], start, succ, p + [succ])
  {
    var q, parent' := p + [succ], parent[succ := current];
    forall i | 0 < i < |q|
      ensures Linked(parent', q, i)
    {
      assert i < |p| ==> Linked(parent, p, i);
    }
  }

  lemma EnterKeepsReached(start: Node, parent: map<Node, Node>, paths: map<Node, seq<Node>>,
                          ends: seq<Node>, trails: seq<seq<Node>>, current: Node, succ: Node)
    requires paths.Keys == parent.Keys + {start} && Reached(parent, paths, ends, trails)
    requires succ !in parent && succ != start && current in paths
    ensures var paths' := paths[succ := paths[current] + [succ]];
            if succ.TrackEnd? then Reached(parent[succ := current], paths', ends, trails)
            else Reached(parent[succ := current], paths', ends + [succ], trails + [paths'[succ]])
  {
  }

  /** What the search holds; `count` numbers the routes of this start. */
  datatype Search = Search(parent: map<Node, Node>, stack: seq<Node>, routes: seq<Route>, count: nat)

  /** The proof's record of a search: the way to each visited node, and the ends and trails of the routes. */
  datatype Record = Record(paths: map<Node, seq<Node>>, ends: seq<Node>, trails: seq<seq<Node>>)

  ghost predicate Sound(g: Network, start: Node, s: Search, h: Record) {
    && Rooted(g, start, s.parent, h.paths)
    && Reached(s.parent, h.paths, h.ends, h.trails)
    && Labelled(g, h.trails, s.routes)
    && s.count == |s.routes|
    && forall u :: u in s.stack ==> Expandable(start, s.parent, u)
  }

  /** The program's action on a successor it may visit. */
  method Visit(g: Network, start: Node, current: Node, succ: Node, s: Search, ghost h: Record)
    returns (s': Search, ghost h': Record)
    requires Coherent(g) && !start.TrackEnd? && Sound(g, start, s, h)
    requires Expandable(start, s.parent, current)
    requires (current, succ) in g.edges && ValidSuccessor(g, start, current, succ, s.parent)
    ensures Sound(g, start, s', h')
    ensures s'.parent == s.parent[succ := current]
    ensures s'.stack == if succ.TrackEnd? then s.stack + [succ] else s.stack
    ensures h'.ends == if succ.TrackEnd? then h.ends else h.ends + [succ]
  {
    EnterKeepsRooted(g, start, s.parent, h.paths, current, succ);
    EnterKeepsReached(start, s.parent, h.paths, h.ends, h.trails, current, succ);
    var parent := s.parent[succ := current];
    ghost var trail := h.paths[current] + [succ];
    ghost var paths := h.paths[succ := trail];
    if succ.TrackEnd? {
      s' := s.(parent := parent, stack := s.stack + [succ]);
      h' := h.(paths := paths);
    } else {
      assert paths[succ] == trail;
      assert Walk(parent, start, succ, trail);
      WalkIsRoutePath(g, start, parent, succ, trail);
      var route := BuildRoute(g, s.count, succ, parent, trail);
      LabelledStep(g, h.trails, s.routes, trail, route);
      s' := s.(parent := parent, routes := s.routes + [route], count := s.count + 1);
      h' := Record(paths, h.ends + [succ], h.trails + [trail]);
    }
  }

  lemma LabelledStep(g: Network, trails: seq<seq<Node>>, routes: seq<Route>, trail: seq<Node>, route: Route)
    requires Labelled(g, trails, routes) && Describes(g, route, trail, |routes|)
    ensures Labelled(g, trails + [trail], routes + [route])
  {
  }

  /** Every node the search goes on from is on the stack or done with, but for `except`. */
  ghost predicate Frontier(g: Network, start: Node, s: Search, except: set<Node>)
    requires Coherent(g)
  {
    forall u :: u !in except ==> Pending(g, start, s.parent, s.stack, u)
  }

  /** The first `k` successors of a node are settled. */
  ghost predicate SettledUpTo(g: Network, start: Node, parent: map<Node, Node>, u: Node, k: nat)
    requires Coherent(g) && u in g.successors && k <= |g.successors[u]|
  {
    forall j :: 0 <= j < k ==> Settled(g, start, parent, u, g.successors[u][j])
  }

  lemma EnterKeepsFrontier(g: Network, start: Node, s: Search, s': Search, current: Node, succ: Node)
    requires Coherent(g) && succ !in s.parent && succ != start
    requires s'.parent == s.parent[succ := current]
    requires s'.stack == if succ.TrackEnd? then s.stack + [succ] else s.stack
    requires Frontier(g, start, s, {current})
    ensures Frontier(g, start, s', {current})
  {
  }

  lemma EnterKeepsSettled(g: Network, start: Node, parent: map<Node, Node>, u: Node, succ: Node, k: nat)
    requires Coherent(g) && u in g.successors && k < |g.successors[u]|
    requires SettledUpTo(g, start, parent, u, k)
    requires succ == g.successors[u][k] && (u, succ) in g.edges
    requires u == start || u in parent
    ensures ValidSuccessor(g, start, u, succ, parent) ==> SettledUpTo(g, start, parent[succ := u], u, k + 1)
    ensures !ValidSuccessor(g, start, u, succ, parent) ==> SettledUpTo(g, start, parent, u, k + 1)
  {
  }

  lemma SettledIsSaturated(g: Network, start: Node, s: Search, u: Node)
    requires Coherent(g) && Frontier(g, start, s, {u})
    requires u in g.successors ==> SettledUpTo(g, start, s.parent, u, |g.successors[u]|)
    ensures Frontier(g, start, s, {})
  {
  }

  lemma PopKeepsFrontier(g: Network, start: Node, s: Search)
    requires Coherent(g) && Frontier(g, start, s, {}) && s.stack != []
    ensures Frontier(g, start, s.(stack := s.stack[..|s.stack| - 1]), {s.stack[|s.stack| - 1]})
  {
    assert s.stack == s.stack[..|s.stack| - 1] + [s.stack[|s.stack| - 1]];
  }

  /** The search has done nothing, or has visited new nodes. */
  ghost predicate Grew(s: Search, s': Search) {
    s.parent.Keys <= s'.parent.Keys && (s.parent.Keys == s'.parent.Keys ==> s'.stack == s.stack)
  }

  /** The search is depth-first, and its routes are in the order of the visits to their ends. */
  ghost predicate Timely(g: Network, start: Node, parent: map<Node, Node>, visits: map<Node, nat>, stack: seq<Node>,
                         ends: seq<Node>)
  {
    Ordered(g, start, parent, visits, stack) && Ascending(visits, ends)
  }

  lemma NewIsNotAmong(g: Network, start: Node, parent: map<Node, Node>, u: Node, k: nat)
    requires Coherent(g) && u in g.successors && k < |g.successors[u]| && SettledUpTo(g, start, parent, u, k)
    requires (u, g.successors[u][k]) in g.edges && ValidSuccessor(g, start, u, g.successors[u][k], parent)
    ensures g.successors[u][k] !in g.successors[u][..k]
  {
  }

  lemma EnterKeepsTime(g: Network, start: Node, parent: map<Node, Node>, visits: map<Node, nat>, stack: seq<Node>,
                       ends: seq<Node>, current: Node, k: nat, succ: Node)
    requires Timely(g, start, parent, visits, stack, ends) && GoingOn(g, parent, visits, stack, current, k)
    requires current in g.successors && k < |g.successors[current]| && g.successors[current][k] == succ
    requires succ !in visits && succ !in ends && succ !in g.successors[current][..k]
    ensures var parent', visits' := parent[succ := current], visits[succ := |parent| + 1];
            var stack', ends' := if succ.TrackEnd? then stack + [succ] else stack, if succ.TrackEnd? then ends else ends + [succ];
            && Timely(g, start, parent', visits', stack', ends')
            && GoingOn(g, parent', visits', stack', current, k + 1)
  {
    VisitKeepsOrder(g, start, parent, visits, stack, current, k, succ);
    VisitKeepsGoing(g, start, parent, visits, stack, current, k, succ);
    VisitIsOnTop(start, parent, visits, ends, current, succ);
  }

  /** `current` was just taken from the stack. */
  ghost predicate Popped(g: Network, start: Node, current: Node, s: Search, h: Record, visits: map<Node, nat>)
    requires Coherent(g)
  {
    && Sound(g, start, s, h)
    && Expandable(start, s.parent, current)
    && Frontier(g, start, s, {current})
    && Timely(g, start, s.parent, visits, s.stack, h.ends)
    && GoingOn(g, s.parent, visits, s.stack, current, 0)
  }

  lemma PopBegins(g: Network, start: Node, s: Search, h: Record, visits: map<Node, nat>)
    requires Coherent(g) && s.stack != [] && Sound(g, start, s, h) && Frontier(g, start, s, {})
    requires Timely(g, start, s.parent, visits, s.stack, h.ends)
    ensures Popped(g, start, s.stack[|s.stack| - 1], s.(stack := s.stack[..|s.stack| - 1]), h, visits)
  {
    PopKeepsSound(g, start, s, h);
    PopKeepsFrontier(g, start, s);
    PopKeepsTime(g, start, s.parent, visits, s.stack, h.ends);
  }

  lemma PopKeepsSound(g: Network, start: Node, s: Search, h: Record)
    requires s.stack != [] && Sound(g, start, s, h)
    ensures Sound(g, start, s.(stack := s.stack[..|s.stack| - 1]), h)
    ensures Expandable(start, s.parent, s.stack[|s.stack| - 1])
  {
    assert s.stack[|s.stack| - 1] in s.stack;
  }

  lemma PopKeepsTime(g: Network, start: Node, parent: map<Node, Node>, visits: map<Node, nat>, stack: seq<Node>, ends: seq<Node>)
    requires Timely(g, start, parent, visits, stack, ends) && stack != []
    ensures Timely(g, start, parent, visits, stack[..|stack| - 1], ends)
    ensures GoingOn(g, parent, visits, stack[..|stack| - 1], stack[|stack| - 1], 0)
  {
    PopKeepsOrder(g, start, parent, visits, stack);
  }

  /** While the search goes on from `current`, of which it has looked at the first `k` successors. */
  ghost predicate Expanding(g: Network, start: Node, current: Node, k: nat, s: Search, h: Record, visits: map<Node, nat>)
    requires Coherent(g) && current in g.successors && k <= |g.successors[current]|
  {
    && Sound(g, start, s, h)
    && Expandable(start, s.parent, current)
    && Frontier(g, start, s, {current})
    && SettledUpTo(g, start, s.parent, current, k)
    && Timely(g, start, s.parent, visits, s.stack, h.ends)
    && GoingOn(g, s.parent, visits, s.stack, current, k)
  }

  lemma LookKeepsExpanding(g: Network, start: Node, current: Node, k: nat, s: Search, h: Record, visits: map<Node, nat>)
    requires Coherent(g) && current in g.successors && k < |g.successors[current]|
    requires Expanding(g, start, current, k, s, h, visits)
    requires (current, g.successors[current][k]) in g.edges
    requires !ValidSuccessor(g, start, current, g.successors[current][k], s.parent)
    ensures Expanding(g, start, current, k + 1, s, h, visits)
  {
    EnterKeepsSettled(g, start, s.parent, current, g.successors[current][k], k);
    LookKeepsGoing(g, s.parent, visits, s.stack, current, k);
  }

  lemma VisitKeepsExpanding(g: Network, start: Node, current: Node, k: nat, s: Search, h: Record, visits: map<Node, nat>,
                            s': Search, h': Record)
    requires Coherent(g) && current in g.successors && k < |g.successors[current]|
    requires Expanding(g, start, current, k, s, h, visits) && Sound(g, start, s', h')
    requires var succ := g.successors[current][k];
             && (current, succ) in g.edges && ValidSuccessor(g, start, current, succ, s.parent)
             && s'.parent == s.parent[succ := current]
             && s'.stack == (if succ.TrackEnd? then s.stack + [succ] else s.stack)
             && h'.ends == (if succ.TrackEnd? then h.ends else h.ends + [succ])
    ensures Expanding(g, start, current, k + 1, s', h', visits[g.successors[current][k] := |s.parent| + 1])
  {
    var succ := g.successors[current][k];
    EnterKeepsSettled(g, start, s.parent, current, succ, k);
    NewIsNotAmong(g, start, s.parent, current, k);
    UnvisitedIsNew(g, start, s, h, visits, succ);
    EnterKeepsTime(g, start, s.parent, visits, s.stack, h.ends, current, k, succ);
    EnterKeepsFrontier(g, start, s, s', current, succ);
  }

  lemma UnvisitedIsNew(g: Network, start: Node, s: Search, h: Record, visits: map<Node, nat>, v: Node)
    requires Sound(g, start, s, h) && Dated(start, s.parent, visits) && v !in s.parent && v != start
    ensures v !in visits && v !in h.ends
  {
  }

  /** The program's loop over the successors of a node: it leaves that node saturated. */
  method Expand(g: Network, start: Node, current: Node, s: Search, ghost h: Record, ghost visits: map<Node, nat>)
    returns (s': Search, ghost h': Record, ghost visits': map<Node, nat>)
    requires Coherent(g) && !start.TrackEnd? && Popped(g, start, current, s, h, visits)
    ensures Sound(g, start, s', h') && Grew(s, s')
    ensures Frontier(g, start, s', {})
    ensures Timely(g, start, s'.parent, visits', s'.stack, h'.ends)
  {
    s', h', visits' := s, h, visits;
    if current in g.successors {
      var ss := g.successors[current];
      for k := 0 to |ss|
        invariant Expanding(g, start, current, k, s', h', visits') && Grew(s, s')
      {
        assert ss[k] in g.successors[current];
        if ValidSuccessor(g, start, current, ss[k], s'.parent) {
          ghost var before, record := s', h';
          s', h' := Visit(g, start, current, ss[k], s', h');
          VisitKeepsExpanding(g, start, current, k, before, record, visits', s', h');
          visits' := visits'[ss[k] := |before.parent| + 1];
          assert ss[k] in s'.parent && ss[k] !in s.parent;
        } else {
          LookKeepsExpanding(g, start, current, k, s', h', visits');
        }
      }
    }
    SettledIsSaturated(g, start, s', current);
  }

  ghost function Nodes(g: Network): set<Node> {
    set p | p in g.edges :: p.1
  }

  lemma SearchBegins(g: Network, start: Node)
    requires Coherent(g)
    ensures var s := Search(map[], [start], [], 0);
            Sound(g, start, s, Record(map[start := [start]], [], [])) && Frontier(g, start, s, {})
  {
  }

  lemma SearchProgresses(g: Network, start: Node, s: Search, s': Search)
    requires IsTree(g, start, s'.parent) && Grew(s, s')
    ensures Nodes(g) - s'.parent.Keys < Nodes(g) - s.parent.Keys
            || (Nodes(g) - s'.parent.Keys == Nodes(g) - s.parent.Keys && s'.stack == s.stack)
  {
  }

  /**
   The outcome of a search: every route is described by a route path; each waypoint reached has exactly one
   route; and no node the search went through has a successor it could still have taken.
   */
  ghost predicate Searched(g: Network, start: Node, routes: seq<Route>, parent: map<Node, Node>, h: Record)
    requires Coherent(g)
  {
    && Rooted(g, start, parent, h.paths)
    && Reached(parent, h.paths, h.ends, h.trails)
    && Labelled(g, h.trails, routes)
    && (forall n :: 0 <= n < |routes| ==> IsRoutePath(g, start, h.ends[n], h.trails[n]))
    && (forall u :: Expandable(start, parent, u) ==> Saturated(g, start, parent, u))
  }

  /** The routes are those of a complete, depth-first search from `start`. */
  ghost predicate RoutesFrom(g: Network, start: Node, routes: seq<Route>)
    requires Coherent(g)
  {
    exists parent, h, visits ::
      Searched(g, start, routes, parent, h) && Timely(g, start, parent, visits, [], h.ends)
  }

  /** One turn of the program's search loop: it goes on from the node found last. */
  method Advance(g: Network, start: Node, s: Search, ghost h: Record, ghost visits: map<Node, nat>)
    returns (s': Search, ghost h': Record, ghost visits': map<Node, nat>)
    requires Coherent(g) && !start.TrackEnd? && s.stack != []
    requires Sound(g, start, s, h) && Frontier(g, start, s, {})
    requires Timely(g, start, s.parent, visits, s.stack, h.ends)
    ensures Sound(g, start, s', h') && Frontier(g, start, s', {})
    ensures Timely(g, start, s'.parent, visits', s'.stack, h'.ends)
    ensures Nodes(g) - s'.parent.Keys < Nodes(g) - s.parent.Keys
            || (Nodes(g) - s'.parent.Keys == Nodes(g) - s.parent.Keys && |s'.stack| < |s.stack|)
  {
    var current := s.stack[|s.stack| - 1];
    var popped := s.(stack := s.stack[..|s.stack| - 1]);
    PopBegins(g, start, s, h, visits);
    s', h', visits' := Expand(g, start, current, popped, h, visits);
    SearchProgresses(g, start, popped, s');
  }

  /** The program's search loop, which always ends. */
  method SearchFrom(g: Network, start: Node)
    returns (s: Search, ghost h: Record, ghost visits: map<Node, nat>)
    requires Coherent(g) && !start.TrackEnd?
    ensures s.stack == [] && Sound(g, start, s, h) && Frontier(g, start, s, {})
    ensures Timely(g, start, s.parent, visits, [], h.ends)
  {
    s := Search(map[], [start], [], 0);
    h, visits := Record(map[start := [start]], [], []), map[start := 0];
    SearchBegins(g, start);
    OrderBegins(g, start);
    while s.stack != []
      invariant Sound(g, start, s, h)
      invariant Frontier(g, start, s, {})
      invariant Timely(g, start, s.parent, visits, s.stack, h.ends)
      decreases Nodes(g) - s.parent.Keys, |s.stack|
    {
      s, h, visits := Advance(g, start, s, h, visits);
    }
  }

  /** All the routes from one buffer stop or detector. */
  method OneToAllRoutes(g: Network, start: Node) returns (routes: seq<Route>)
    requires Coherent(g) && !start.TrackEnd?
    ensures RoutesFrom(g, start, routes)
  {
    var s;
    ghost var h, visits;
    s, h, visits := SearchFrom(g, start);
    routes := s.routes;
    SearchEnds(g, start, s, h);
    assert Searched(g, start, routes, s.parent, h);
  }

  /**
   What a finished search has left: an edge from a node it went through to one it has neither visited nor started
   from would have crossed two switches in a row, reached a detector straight after a detector or a bare track, or
   crossed a bare track straight after a detector.
   */
  lemma LeftUntakenOnlyToTurnBack(g: Network, start: Node, routes: seq<Route>, parent: map<Node, Node>, h: Record,
                                  u: Node, v: Node)
    requires Coherent(g) && Searched(g, start, routes, parent, h)
    requires u == start || (u in parent && u.TrackEnd?)
    requires (u, v) in g.edges && v !in parent && v != start
    ensures u in parent && (parent[u], u) in g.edges
    ensures var here, before := g.edges[(u, v)], g.edges[(parent[u], u)];
            || (here.Switch? && before.Switch?)
            || (here == ToDetector && (before == Track || before.FromDetector?))
            || (here == Track && before.FromDetector?)
  {
    assert Saturated(g, start, parent, u);
    assert v in g.successors[u] && Settled(g, start, parent, u, v);
  }

  /** In particular, everything next to the start is visited. */
  lemma NextToStartIsVisited(g: Network, start: Node, routes: seq<Route>, parent: map<Node, Node>, h: Record, v: Node)
    requires Coherent(g) && Searched(g, start, routes, parent, h) && (start, v) in g.edges && v != start
    ensures v in parent
  {
    if v !in parent {
      LeftUntakenOnlyToTurnBack(g, start, routes, parent, h, start, v);
    }
  }

  lemma SearchEnds(g: Network, start: Node, s: Search, h: Record)
    requires Coherent(g) && Sound(g, start, s, h) && Frontier(g, start, s, {}) && s.stack == []
    ensures forall n :: 0 <= n < |s.routes| ==> IsRoutePath(g, start, h.ends[n], h.trails[n])
    ensures forall u :: Expandable(start, s.parent, u) ==> Saturated(g, start, s.parent, u)
  {
    forall n | 0 <= n < |s.routes|
      ensures IsRoutePath(g, start, h.ends[n], h.trails[n])
    {
      assert h.ends[n] in s.parent;
      WalkIsRoutePath(g, start, s.parent, h.ends[n], h.trails[n]);
    }
    forall u | Expandable(start, s.parent, u)
      ensures Saturated(g, start, s.parent, u)
    {
      assert Pending(g, start, s.parent, s.stack, u);
    }
  }
}
