/** The order in which a search visits nodes: the node found last is gone on from first. */
module SearchOrder {
  import opened RouteGraph

  ghost predicate ChildOf(parent: map<Node, Node>, v: Node, u: Node) {
    v in parent && parent[v] == u
  }

  /** The number of the visit to a node. */
  ghost function When(visits: map<Node, nat>, v: Node): int {
    if v in visits then visits[v] else -1
  }

  /** The visits are numbered from the start on, no two alike, and a node comes after its parent. */
  ghost predicate Dated(start: Node, parent: map<Node, Node>, visits: map<Node, nat>) {
    && visits.Keys == parent.Keys + {start} && When(visits, start) == 0
    && (forall v :: When(visits, v) <= |parent|)
    && OneAtATime(visits)
    && (forall v, u :: ChildOf(parent, v, u) ==> 0 <= When(visits, u) < When(visits, v))
  }

  ghost predicate OneAtATime(visits: map<Node, nat>) {
    forall u, v :: u in visits && v in visits && u != v ==> visits[u] != visits[v]
  }

  /**
   Between `y` and its child `b` comes `a`, whose parent `x` was visited before `y` and is not the parent of `y`.
   */
  ghost predicate Interrupts(parent: map<Node, Node>, visits: map<Node, nat>, x: Node, y: Node, a: Node, b: Node) {
    && ChildOf(parent, a, x) && ChildOf(parent, b, y) && !ChildOf(parent, y, x)
    && When(visits, x) < When(visits, y) < When(visits, a) < When(visits, b)
  }

  /** The search finishes with what it found last before it goes back. */
  ghost predicate DepthFirst(parent: map<Node, Node>, visits: map<Node, nat>) {
    forall x, y, a, b :: !Interrupts(parent, visits, x, y, a, b)
  }

  /** The children of a node are all visited before any child of theirs. */
  ghost predicate Together(parent: map<Node, Node>, visits: map<Node, nat>) {
    forall u, a, b, w :: ChildOf(parent, a, u) && ChildOf(parent, b, u) && ChildOf(parent, w, a) ==>
      When(visits, b) < When(visits, w)
  }

  /** Among the successors of one node, `a` comes before `b`. */
  ghost predicate Precedes(g: Network, u: Node, a: Node, b: Node) {
    u in g.successors
    && exists n :: 0 <= n <= |g.successors[u]| && a in g.successors[u][..n] && b !in g.successors[u][..n]
  }

  /** The children of a node are visited in the order of its successors. */
  ghost predicate InLine(g: Network, parent: map<Node, Node>, visits: map<Node, nat>) {
    forall u, a, b :: ChildOf(parent, a, u) && ChildOf(parent, b, u) && When(visits, a) < When(visits, b) ==>
      Precedes(g, u, a, b)
  }

  /** Nothing was visited after `w` from an older node, but for siblings of `w`. */
  ghost predicate Rests(parent: map<Node, Node>, visits: map<Node, nat>, w: Node) {
    w in visits && forall a, x :: ChildOf(parent, a, x) && When(visits, x) < When(visits, w) ==>
      ChildOf(parent, w, x) || When(visits, a) < When(visits, w)
  }

  /** What the stack holds: nodes in the order of their visits, none of them gone on from. */
  ghost predicate Stacked(parent: map<Node, Node>, visits: map<Node, nat>, stack: seq<Node>) {
    && (forall w :: w in stack ==> Rests(parent, visits, w))
    && Ascending(visits, stack)
    && (forall v, u :: ChildOf(parent, v, u) ==> u !in stack)
  }

  ghost predicate Ascending(visits: map<Node, nat>, stack: seq<Node>) {
    forall p, q :: 0 <= p < q < |stack| ==> When(visits, stack[p]) < When(visits, stack[q])
  }

  ghost predicate Ordered(g: Network, start: Node, parent: map<Node, Node>, visits: map<Node, nat>, stack: seq<Node>) {
    && Dated(start, parent, visits)
    && DepthFirst(parent, visits)
    && Together(parent, visits)
    && InLine(g, parent, visits)
    && Stacked(parent, visits, stack)
  }

  ghost predicate FoundAmong(g: Network, parent: map<Node, Node>, u: Node, k: nat) {
    forall v :: ChildOf(parent, v, u) ==> u in g.successors && k <= |g.successors[u]| && v in g.successors[u][..k]
  }

  /** While the search goes on from `current`, of which it has looked at the first `k` successors. */
  ghost predicate GoingOn(g: Network, parent: map<Node, Node>, visits: map<Node, nat>, stack: seq<Node>, current: Node, k: nat) {
    && Rests(parent, visits, current) && current !in stack
    && (forall w :: w in stack ==> When(visits, w) < When(visits, current) || ChildOf(parent, w, current))
    && FoundAmong(g, parent, current, k)
    && (forall v, w :: ChildOf(parent, v, current) ==> !ChildOf(parent, w, v))
  }

  lemma OrderBegins(g: Network, start: Node)
    ensures Ordered(g, start, map[], map[start := 0], [start])
  {
  }

  lemma PopKeepsOrder(g: Network, start: Node, parent: map<Node, Node>, visits: map<Node, nat>, stack: seq<Node>)
    requires Ordered(g, start, parent, visits, stack) && stack != []
    ensures var rest, current := stack[..|stack| - 1], stack[|stack| - 1];
            Ordered(g, start, parent, visits, rest) && GoingOn(g, parent, visits, rest, current, 0)
  {
  }

  lemma LookKeepsGoing(g: Network, parent: map<Node, Node>, visits: map<Node, nat>, stack: seq<Node>, current: Node, k: nat)
    requires GoingOn(g, parent, visits, stack, current, k)
    requires current in g.successors && k < |g.successors[current]|
    ensures GoingOn(g, parent, visits, stack, current, k + 1)
  {
    var ss := g.successors[current];
    assert ss[..k + 1] == ss[..k] + [ss[k]];
  }

  /** What a visit changes. */
  lemma AfterVisit(start: Node, parent: map<Node, Node>, visits: map<Node, nat>, current: Node, succ: Node)
    requires Dated(start, parent, visits) && succ !in visits
    ensures var parent', visits' := parent[succ := current], visits[succ := |parent| + 1];
            && (forall v, u :: ChildOf(parent', v, u) <==> (v == succ && u == current) || ChildOf(parent, v, u))
            && (forall v :: When(visits', v) == if v == succ then |parent| + 1 else When(visits, v))
            && (forall v :: When(visits, v) <= |parent|)
            && (forall v :: !ChildOf(parent, v, succ))
  {
  }

  lemma VisitIsDated(start: Node, parent: map<Node, Node>, visits: map<Node, nat>, current: Node, succ: Node)
    requires Dated(start, parent, visits) && current in visits && succ !in visits
    ensures Dated(start, parent[succ := current], visits[succ := |parent| + 1])
  {
    NewestIsAlone(visits, succ, |parent| + 1);
    NewestIsLast(start, parent, visits, current, succ);
    ChildComesLater(start, parent, visits, current, succ);
  }

  lemma NewestIsLast(start: Node, parent: map<Node, Node>, visits: map<Node, nat>, current: Node, succ: Node)
    requires visits.Keys == parent.Keys + {start} && succ !in visits && When(visits, start) == 0
    requires forall v :: When(visits, v) <= |parent|
    ensures var parent', visits' := parent[succ := current], visits[succ := |parent| + 1];
            && visits'.Keys == parent'.Keys + {start} && When(visits', start) == 0
            && forall v :: When(visits', v) <= |parent'|
  {
    var parent', visits' := parent[succ := current], visits[succ := |parent| + 1];
    assert |parent'| == |parent| + 1;
    assert forall v :: When(visits', v) == if v == succ then |parent| + 1 else When(visits, v);
  }

  lemma ChildComesLater(start: Node, parent: map<Node, Node>, visits: map<Node, nat>, current: Node, succ: Node)
    requires Dated(start, parent, visits) && current in visits && succ !in visits
    ensures var parent', visits' := parent[succ := current], visits[succ := |parent| + 1];
            forall v, u :: ChildOf(parent', v, u) ==> 0 <= When(visits', u) < When(visits', v)
  {
    AfterVisit(start, parent, visits, current, succ);
  }

  lemma NewestIsAlone(visits: map<Node, nat>, succ: Node, n: nat)
    requires OneAtATime(visits) && forall v :: When(visits, v) < n
    ensures OneAtATime(visits[succ := n])
  {
    assert forall v :: v in visits ==> visits[v] == When(visits, v);
  }

  lemma VisitIsDepthFirst(start: Node, parent: map<Node, Node>, visits: map<Node, nat>, current: Node, succ: Node)
    requires Dated(start, parent, visits) && DepthFirst(parent, visits) && Rests(parent, visits, current) && succ !in visits
    ensures DepthFirst(parent[succ := current], visits[succ := |parent| + 1])
  {
    AfterVisit(start, parent, visits, current, succ);
    var parent', visits' := parent[succ := current], visits[succ := |parent| + 1];
    forall x, y, a, b
      ensures !Interrupts(parent', visits', x, y, a, b)
    {
      assert !Interrupts(parent, visits, x, y, a, b);
    }
  }

  lemma VisitIsTogether(start: Node, parent: map<Node, Node>, visits: map<Node, nat>, current: Node, succ: Node)
    requires Dated(start, parent, visits) && Together(parent, visits) && current in visits && succ !in visits
    requires forall v, w :: ChildOf(parent, v, current) ==> !ChildOf(parent, w, v)
    ensures Together(parent[succ := current], visits[succ := |parent| + 1])
  {
    AfterVisit(start, parent, visits, current, succ);
  }

  lemma VisitIsInLine(g: Network, start: Node, parent: map<Node, Node>, visits: map<Node, nat>, current: Node, k: nat, succ: Node)
    requires Dated(start, parent, visits) && InLine(g, parent, visits) && succ !in visits
    requires current in g.successors && k < |g.successors[current]| && succ !in g.successors[current][..k]
    requires FoundAmong(g, parent, current, k)
    ensures InLine(g, parent[succ := current], visits[succ := |parent| + 1])
  {
    AfterVisit(start, parent, visits, current, succ);
  }

  lemma VisitKeepsResting(start: Node, parent: map<Node, Node>, visits: map<Node, nat>, current: Node, succ: Node, w: Node)
    requires Dated(start, parent, visits) && current in visits && succ !in visits && Rests(parent, visits, w)
    requires When(visits, w) <= When(visits, current) || ChildOf(parent, w, current)
    ensures Rests(parent[succ := current], visits[succ := |parent| + 1], w)
  {
    AfterVisit(start, parent, visits, current, succ);
  }

  lemma VisitRests(start: Node, parent: map<Node, Node>, visits: map<Node, nat>, current: Node, succ: Node)
    requires Dated(start, parent, visits) && succ !in visits
    ensures Rests(parent[succ := current], visits[succ := |parent| + 1], succ)
  {
    AfterVisit(start, parent, visits, current, succ);
  }

  lemma VisitIsStacked(g: Network, start: Node, parent: map<Node, Node>, visits: map<Node, nat>, stack: seq<Node>,
                       current: Node, k: nat, succ: Node)
    requires Dated(start, parent, visits) && Stacked(parent, visits, stack) && succ !in visits
    requires GoingOn(g, parent, visits, stack, current, k)
    ensures var parent', visits' := parent[succ := current], visits[succ := |parent| + 1];
            Stacked(parent', visits', stack) && Stacked(parent', visits', stack + [succ])
  {
    var parent', visits' := parent[succ := current], visits[succ := |parent| + 1];
    forall w | w in stack
      ensures Rests(parent', visits', w)
    {
      VisitKeepsResting(start, parent, visits, current, succ, w);
    }
    VisitRests(start, parent, visits, current, succ);
    VisitIsOnTop(start, parent, visits, stack, current, succ);
    AfterVisit(start, parent, visits, current, succ);
  }

  lemma VisitIsOnTop(start: Node, parent: map<Node, Node>, visits: map<Node, nat>, stack: seq<Node>, current: Node, succ: Node)
    requires Dated(start, parent, visits) && succ !in visits && succ !in stack && Ascending(visits, stack)
    ensures var visits' := visits[succ := |parent| + 1];
            Ascending(visits', stack) && Ascending(visits', stack + [succ])
  {
    AfterVisit(start, parent, visits, current, succ);
  }

  /** A visit to the next successor of `current`, which is not among those before it. */
  lemma VisitKeepsOrder(g: Network, start: Node, parent: map<Node, Node>, visits: map<Node, nat>, stack: seq<Node>,
                        current: Node, k: nat, succ: Node)
    requires Ordered(g, start, parent, visits, stack) && GoingOn(g, parent, visits, stack, current, k)
    requires current in g.successors && k < |g.successors[current]| && g.successors[current][k] == succ
    requires succ !in visits && succ !in g.successors[current][..k]
    ensures var parent', visits' := parent[succ := current], visits[succ := |parent| + 1];
            Ordered(g, start, parent', visits', stack) && Ordered(g, start, parent', visits', stack + [succ])
  {
    VisitIsDated(start, parent, visits, current, succ);
    VisitIsDepthFirst(start, parent, visits, current, succ);
    VisitIsTogether(start, parent, visits, current, succ);
    VisitIsInLine(g, start, parent, visits, current, k, succ);
    VisitIsStacked(g, start, parent, visits, stack, current, k, succ);
  }

  lemma VisitKeepsGoing(g: Network, start: Node, parent: map<Node, Node>, visits: map<Node, nat>, stack: seq<Node>,
                        current: Node, k: nat, succ: Node)
    requires Dated(start, parent, visits) && Stacked(parent, visits, stack) && GoingOn(g, parent, visits, stack, current, k)
    requires current in g.successors && k < |g.successors[current]| && g.successors[current][k] == succ
    requires succ !in visits
    ensures var parent', visits' := parent[succ := current], visits[succ := |parent| + 1];
            && GoingOn(g, parent', visits', stack, current, k + 1)
            && GoingOn(g, parent', visits', stack + [succ], current, k + 1)
  {
    VisitKeepsResting(start, parent, visits, current, succ, current);
    AfterVisit(start, parent, visits, current, succ);
    var ss := g.successors[current];
    assert ss[..k + 1] == ss[..k] + [succ];
  }

  // ---------------------------------------------------------------------------------------------
  // Branches
  // ---------------------------------------------------------------------------------------------

  /** From `i` on, each node of `q` is a child of the one before. */
  ghost predicate Descends(parent: map<Node, Node>, q: seq<Node>, i: nat) {
    forall k :: i < k < |q| ==> ChildOf(parent, q[k], q[k - 1])
  }

  lemma {:induction false} DescendantIsLater(start: Node, parent: map<Node, Node>, visits: map<Node, nat>, q: seq<Node>,
                                             i: nat, j: nat)
    requires Dated(start, parent, visits) && Descends(parent, q, i) && i <= j < |q|
    ensures When(visits, q[i]) <= When(visits, q[j])
    ensures i < j ==> When(visits, q[i]) < When(visits, q[j])
  {
    if i < j {
      DescendantIsLater(start, parent, visits, q, i, j - 1);
      assert ChildOf(parent, q[j], q[j - 1]);
    }
  }

  /** All that descends from a node is visited before any child of a sibling visited earlier. */
  lemma {:induction false} LaterSiblingGoesFirst(start: Node, parent: map<Node, Node>, visits: map<Node, nat>,
                                                 u: Node, a: Node, w: Node, q: seq<Node>, i: nat, j: nat)
    requires Dated(start, parent, visits) && DepthFirst(parent, visits) && Together(parent, visits)
    requires ChildOf(parent, a, u) && ChildOf(parent, w, a)
    requires i <= j < |q| && Descends(parent, q, i) && ChildOf(parent, q[i], u) && When(visits, a) < When(visits, q[i])
    ensures When(visits, q[j]) < When(visits, w)
  {
    if i < j {
      LaterSiblingGoesFirst(start, parent, visits, u, a, w, q, i, j - 1);
      DescendantIsLater(start, parent, visits, q, i, j - 1);
      assert ChildOf(parent, q[j], q[j - 1]);
      if j - 1 > i {
        DescendantIsLater(start, parent, visits, q, i, j - 2);
        assert ChildOf(parent, q[j - 1], q[j - 2]);
      }
      assert q[j] in visits && w in visits;
      assert q[j] != w;
      assert !Interrupts(parent, visits, a, q[j - 1], w, q[j]);
    }
  }

  /** Of two branches that both go on, the one visited later is finished first. */
  lemma BranchesInTurn(g: Network, start: Node, parent: map<Node, Node>, visits: map<Node, nat>, p: seq<Node>, q: seq<Node>, c: nat)
    requires Ordered(g, start, parent, visits, []) && Descends(parent, p, 0) && Descends(parent, q, 0)
    requires c + 2 < |p| && c + 2 < |q| && p[c] == q[c] && p[c + 1] != q[c + 1]
    ensures When(visits, p[|p| - 1]) < When(visits, q[|q| - 1]) ==> Precedes(g, p[c], q[c + 1], p[c + 1])
  {
    assert ChildOf(parent, p[c + 1], p[c]) && ChildOf(parent, q[c + 1], q[c]);
    assert ChildOf(parent, p[c + 2], p[c + 1]);
    assert p[c + 1] in visits && q[c + 1] in visits;
    if When(visits, p[c + 1]) < When(visits, q[c + 1]) {
      LaterSiblingGoesFirst(start, parent, visits, p[c], p[c + 1], p[c + 2], q, c + 1, |q| - 1);
      DescendantIsLater(start, parent, visits, p, c + 2, |p| - 1);
    }
  }
}
