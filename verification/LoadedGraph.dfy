/**
 What the loaded graph says of an infrastructure, edge by edge: which end of its track a buffer stop is joined to,
 which detectors a track leads to and from in each direction, which tracks are crossed whole, and which switch
 joins two track endpoints.
 */
module LoadedGraph {
  import opened Options
  import opened Sequences
  import opened RouteGraph
  import opened RouteSearch

  // ---------------------------------------------------------------------------------------------
  // The infrastructure in its own terms
  // ---------------------------------------------------------------------------------------------

  /** The end of its track a buffer stop stands at: within the first ten centimetres, or not. */
  function EndOf(b: BufferOn): Node {
    At(b.track, if b.position < 100 then Begin else End)
  }

  /** Detector `a` is further along than `b`; before the track's start all positions are the same. */
  predicate Beyond(a: DetectorOn, b: DetectorOn) {
    0 < a.position && b.position < a.position
  }

  /** The detector of the track that none is beyond, the last listed of several. */
  ghost predicate IsLast(ds: seq<DetectorOn>, t: Identifier, n: nat) {
    && n < |ds| && ds[n].track == t
    && (forall m :: 0 <= m < |ds| && ds[m].track == t ==> !Beyond(ds[m], ds[n]))
    && (forall m :: n < m < |ds| && ds[m].track == t ==> Beyond(ds[n], ds[m]))
  }

  /** The detector of the track that is beyond none, the first listed of several. */
  ghost predicate IsFirst(ds: seq<DetectorOn>, t: Identifier, n: nat) {
    && n < |ds| && ds[n].track == t
    && (forall m :: 0 <= m < |ds| && ds[m].track == t ==> !Beyond(ds[n], ds[m]))
    && (forall m :: 0 <= m < n && ds[m].track == t ==> Beyond(ds[m], ds[n]))
  }

  ghost predicate LastIs(ds: seq<DetectorOn>, t: Identifier, x: Identifier) {
    exists n: nat :: IsLast(ds, t, n) && ds[n].id == x
  }

  ghost predicate FirstIs(ds: seq<DetectorOn>, t: Identifier, x: Identifier) {
    exists n: nat :: IsFirst(ds, t, n) && ds[n].id == x
  }

  ghost predicate Detected(ds: seq<DetectorOn>, t: Identifier) {
    exists d :: d in ds && d.track == t
  }

  /** The first type of this name. */
  ghost predicate TypeAt(types: seq<NodeType>, id: Identifier, i: nat) {
    i < |types| && types[i].id == id && forall j :: 0 <= j < i ==> types[j].id != id
  }

  /** The connection of the switch joins the two endpoints, in this or the other direction. */
  predicate Connects(s: SwitchOn, c: Connection, u: Node, v: Node) {
    && ConnectionOk(s, c)
    && ((u == TrackEnd(s.ports[c.src]) && v == TrackEnd(s.ports[c.dst]))
        || (v == TrackEnd(s.ports[c.src]) && u == TrackEnd(s.ports[c.dst])))
  }

  /** A connection of this group of the type of the switch joins the two endpoints. */
  ghost predicate GroupJoins(s: SwitchOn, group: Group, u: Node, v: Node) {
    exists c :: c in group.connections && Connects(s, c, u, v)
  }

  ghost predicate TypeJoins(s: SwitchOn, groups: seq<Group>, port: Identifier, u: Node, v: Node) {
    exists group :: group in groups && group.port == port && GroupJoins(s, group, u, v)
  }

  ghost predicate SwitchJoins(types: seq<NodeType>, s: SwitchOn, port: Identifier, u: Node, v: Node) {
    exists i: nat :: TypeAt(types, s.nodeType, i) && TypeJoins(s, types[i].groups, port, u, v)
  }

  /** A switch of this identifier joins the two endpoints when it is set to this port. */
  ghost predicate Joins(infra: Infra, id: Identifier, port: Identifier, u: Node, v: Node) {
    exists s :: s in infra.switches && s.id == id && SwitchJoins(infra.nodeTypes, s, port, u, v)
  }

  ghost predicate SomeSwitchJoins(infra: Infra, u: Node, v: Node) {
    exists id, port :: Joins(infra, id, port, u, v)
  }

  // ---------------------------------------------------------------------------------------------
  // Which edges are declared
  // ---------------------------------------------------------------------------------------------

  ghost predicate FromDetectorsOf(ds: seq<DetectorOn>, t: Identifier, e: Edge) {
    OnTrack(ds, t) != [] && e in DetectorEdges(t, OnTrack(ds, t))
  }

  lemma {:induction false} InDetectorEdges(ds: seq<DetectorOn>, tracks: seq<Identifier>, e: Edge)
    ensures e in AllDetectorEdges(ds, tracks) <==> exists t :: t in tracks && FromDetectorsOf(ds, t, e)
  {
    if tracks != [] {
      var init, last := tracks[..|tracks| - 1], tracks[|tracks| - 1];
      InDetectorEdges(ds, init, e);
      assert tracks == init + [last];
      var more := if OnTrack(ds, last) == [] then [] else DetectorEdges(last, OnTrack(ds, last));
      assert AllDetectorEdges(ds, tracks) == AllDetectorEdges(ds, init) + more;
      assert e in more <==> FromDetectorsOf(ds, last, e);
    }
  }

  lemma {:induction false} InBufferEdges(bs: seq<BufferOn>, e: Edge)
    ensures e in AllBufferEdges(bs) <==> exists b :: b in bs && e in BufferEdges(b)
  {
    if bs != [] {
      InBufferEdges(bs[..|bs| - 1], e);
      assert bs == bs[..|bs| - 1] + [bs[|bs| - 1]];
    }
  }

  lemma {:induction false} InTrackEdges(tracks: seq<Identifier>, ds: seq<DetectorOn>, e: Edge)
    ensures e in AllTrackEdges(tracks, ds)
            <==> exists t :: t in tracks && OnTrack(ds, t) == [] && e in Both(At(t, End), At(t, Begin), Track)
  {
    if tracks != [] {
      InTrackEdges(tracks[..|tracks| - 1], ds, e);
      assert tracks == tracks[..|tracks| - 1] + [tracks[|tracks| - 1]];
    }
  }

  lemma {:induction false} InGroupEdges(s: SwitchOn, port: Identifier, cs: seq<Connection>, e: Edge)
    ensures e in GroupEdges(s, port, cs)
            <==> e.kind == Switch(s.id, port) && exists c :: c in cs && Connects(s, c, e.src, e.dst)
  {
    if cs != [] {
      var init, last := cs[..|cs| - 1], cs[|cs| - 1];
      InGroupEdges(s, port, init, e);
      assert cs == init + [last];
      assert e in GroupEdges(s, port, cs)
             <==> e in GroupEdges(s, port, init) || (e.kind == Switch(s.id, port) && Connects(s, last, e.src, e.dst));
    }
  }

  lemma {:induction false} InSwitchEdges(s: SwitchOn, groups: seq<Group>, e: Edge)
    ensures e in SwitchEdges(s, groups)
            <==> e.kind.Switch? && e.kind.id == s.id && TypeJoins(s, groups, e.kind.port, e.src, e.dst)
  {
    if groups != [] {
      var init, last := groups[..|groups| - 1], groups[|groups| - 1];
      InSwitchEdges(s, init, e);
      InGroupEdges(s, last.port, last.connections, e);
      assert groups == init + [last];
    }
  }

  lemma {:induction false} TypeOfIs(types: seq<NodeType>, id: Identifier)
    ensures TypeOf(types, id).Some? ==> exists i: nat :: TypeAt(types, id, i) && types[i] == TypeOf(types, id).value
    ensures TypeOf(types, id).None? ==> forall i: nat :: !TypeAt(types, id, i)
  {
    if types != [] {
      if types[0].id == id {
        assert TypeAt(types, id, 0);
      } else {
        TypeOfIs(types[1..], id);
        if TypeOf(types[1..], id).Some? {
          var i: nat :| TypeAt(types[1..], id, i) && types[1..][i] == TypeOf(types[1..], id).value;
          assert TypeAt(types, id, i + 1);
        } else {
          forall i: nat
            ensures !TypeAt(types, id, i)
          {
            if TypeAt(types, id, i) {
              assert TypeAt(types[1..], id, i - 1);
            }
          }
        }
      }
    }
  }

  lemma TypeIsUnique(types: seq<NodeType>, id: Identifier, i: nat, j: nat)
    requires TypeAt(types, id, i) && TypeAt(types, id, j)
    ensures i == j
  {
  }

  lemma InTypedSwitchEdges(types: seq<NodeType>, s: SwitchOn, e: Edge)
    ensures e in TypedSwitchEdges(types, s)
            <==> e.kind.Switch? && e.kind.id == s.id && SwitchJoins(types, s, e.kind.port, e.src, e.dst)
  {
    TypeOfIs(types, s.nodeType);
    var t := TypeOf(types, s.nodeType);
    if t.Some? {
      InSwitchEdges(s, t.value.groups, e);
      var i: nat :| TypeAt(types, s.nodeType, i) && types[i] == t.value;
      forall j: nat | TypeAt(types, s.nodeType, j)
        ensures j == i
      {
        TypeIsUnique(types, s.nodeType, i, j);
      }
    }
  }

  lemma {:induction false} InAllSwitchEdges(types: seq<NodeType>, ss: seq<SwitchOn>, e: Edge)
    ensures e in AllSwitchEdges(types, ss)
            <==> e.kind.Switch?
                 && exists s :: s in ss && s.id == e.kind.id && SwitchJoins(types, s, e.kind.port, e.src, e.dst)
  {
    if ss != [] {
      var init, last := ss[..|ss| - 1], ss[|ss| - 1];
      InAllSwitchEdges(types, init, e);
      InTypedSwitchEdges(types, last, e);
      assert ss == init + [last];
    }
  }

  // ---------------------------------------------------------------------------------------------
  // The detectors that carry edges
  // ---------------------------------------------------------------------------------------------

  lemma BeyondIsGreater(a: DetectorOn, b: DetectorOn)
    ensures Beyond(a, b) <==> PositionKey(b) < PositionKey(a)
  {
  }

  /** One more detector of the track: it is the last one unless the last one so far is beyond it. */
  lemma LastStep(init: seq<DetectorOn>, d: DetectorOn, t: Identifier, k: nat)
    requires d.track == t && IsLast(init, t, k)
    ensures IsLast(init + [d], t, if Beyond(init[k], d) then k else |init|)
  {
  }

  lemma FirstStep(init: seq<DetectorOn>, d: DetectorOn, t: Identifier, k: nat)
    requires d.track == t && IsFirst(init, t, k)
    ensures IsFirst(init + [d], t, if Beyond(init[k], d) then |init| else k)
  {
  }

  /** A detector elsewhere changes nothing. */
  lemma OtherStep(init: seq<DetectorOn>, d: DetectorOn, t: Identifier, k: nat)
    requires d.track != t
    ensures IsLast(init, t, k) ==> IsLast(init + [d], t, k)
    ensures IsFirst(init, t, k) ==> IsFirst(init + [d], t, k)
  {
  }

  lemma OnlyStep(init: seq<DetectorOn>, d: DetectorOn, t: Identifier)
    requires d.track == t && OnTrack(init, t) == []
    ensures IsLast(init + [d], t, |init|) && IsFirst(init + [d], t, |init|)
  {
    OnTrackEmpty(init, t);
    assert forall m :: 0 <= m < |init| ==> init[m] in init && init[m].track in TracksOf(init);
  }

  lemma MetStep(here: seq<DetectorOn>, d: DetectorOn)
    requires here != []
    ensures (here + [d])[LastMet(here + [d])] == if Beyond(here[LastMet(here)], d) then here[LastMet(here)] else d
    ensures (here + [d])[FirstMet(here + [d])] == if Beyond(here[FirstMet(here)], d) then d else here[FirstMet(here)]
  {
    assert (here + [d])[..|here|] == here;
    BeyondIsGreater(here[LastMet(here)], d);
    BeyondIsGreater(here[FirstMet(here)], d);
  }

  /** The detectors that carry the edges of a track are its last and its first one. */
  lemma {:induction false} MetAreLastAndFirst(ds: seq<DetectorOn>, t: Identifier) returns (l: nat, f: nat)
    requires OnTrack(ds, t) != []
    ensures IsLast(ds, t, l) && ds[l] == OnTrack(ds, t)[LastMet(OnTrack(ds, t))]
    ensures IsFirst(ds, t, f) && ds[f] == OnTrack(ds, t)[FirstMet(OnTrack(ds, t))]
    decreases |ds|
  {
    var init, d := ds[..|ds| - 1], ds[|ds| - 1];
    assert ds == init + [d];
    if d.track != t {
      l, f := MetAreLastAndFirst(init, t);
      OtherStep(init, d, t, l);
      OtherStep(init, d, t, f);
    } else if OnTrack(init, t) == [] {
      l, f := |init|, |init|;
      OnlyStep(init, d, t);
    } else {
      var k, n := MetAreLastAndFirst(init, t);
      MetStep(OnTrack(init, t), d);
      LastStep(init, d, t, k);
      FirstStep(init, d, t, n);
      l, f := if Beyond(init[k], d) then k else |init|, if Beyond(init[n], d) then |init| else n;
    }
  }

  lemma LastIsLastMet(ds: seq<DetectorOn>, t: Identifier, x: Identifier)
    ensures OnTrack(ds, t) != [] <==> Detected(ds, t)
    ensures LastIs(ds, t, x) <==> OnTrack(ds, t) != [] && x == OnTrack(ds, t)[LastMet(OnTrack(ds, t))].id
    ensures FirstIs(ds, t, x) <==> OnTrack(ds, t) != [] && x == OnTrack(ds, t)[FirstMet(OnTrack(ds, t))].id
  {
    OnTrackEmpty(ds, t);
    if OnTrack(ds, t) != [] {
      var n, k := MetAreLastAndFirst(ds, t);
      forall m: nat | IsLast(ds, t, m)
        ensures m == n
      {
      }
      forall m: nat | IsFirst(ds, t, m)
        ensures m == k
      {
      }
    }
    if n: nat :| IsLast(ds, t, n) && ds[n].id == x {
      assert ds[n] in ds;
    }
    if n: nat :| IsFirst(ds, t, n) && ds[n].id == x {
      assert ds[n] in ds;
    }
  }

  /** Which detector a track leads to, and where from there, in each direction. */
  ghost predicate DetectorEdge(ds: seq<DetectorOn>, e: Edge) {
    || (e.src.TrackEnd? && e.dst.Detector? && e.kind == ToDetector
        && if e.src.at.endpoint == Begin then LastIs(ds, e.src.at.track, e.dst.id) else FirstIs(ds, e.src.at.track, e.dst.id))
    || (e.src.Detector? && e.dst.TrackEnd?
        && if e.dst.at.endpoint == End
           then e.kind == FromDetector(StartToStop) && LastIs(ds, e.dst.at.track, e.src.id)
           else e.kind == FromDetector(StopToStart) && FirstIs(ds, e.dst.at.track, e.src.id))
  }

  lemma FromDetectorsIs(ds: seq<DetectorOn>, e: Edge)
    ensures (exists t :: FromDetectorsOf(ds, t, e)) <==> DetectorEdge(ds, e)
    ensures forall t :: FromDetectorsOf(ds, t, e) ==> t in TracksOf(ds)
  {
    forall t
      ensures FromDetectorsOf(ds, t, e) ==> DetectorEdge(ds, e) && t in TracksOf(ds)
    {
      OnTrackEmpty(ds, t);
      if FromDetectorsOf(ds, t, e) {
        LastIsLastMet(ds, t, if e.src.Detector? then e.src.id else e.dst.id);
      }
    }
    if DetectorEdge(ds, e) {
      var t := if e.src.TrackEnd? then e.src.at.track else e.dst.at.track;
      LastIsLastMet(ds, t, if e.src.Detector? then e.src.id else e.dst.id);
      assert FromDetectorsOf(ds, t, e);
    }
  }

  /** Which end of its track a buffer stop is joined to, and how. */
  ghost predicate BufferEdge(bs: seq<BufferOn>, e: Edge) {
    exists b :: b in bs && BufferEdgeOf(b, e)
  }

  predicate BufferEdgeOf(b: BufferOn, e: Edge) {
    && ((e.src == BufferStop(b.id) && e.dst == EndOf(b)) || (e.src == EndOf(b) && e.dst == BufferStop(b.id)))
    && e.kind == Buffer(if EndOf(b).at.endpoint == Begin then StartToStop else StopToStart)
  }

  /** A track without detectors, crossed from one end to the other. */
  ghost predicate TrackEdge(infra: Infra, e: Edge) {
    && e.src.TrackEnd? && e.dst.TrackEnd? && e.kind == Track
    && e.src.at.track == e.dst.at.track && e.src.at.endpoint != e.dst.at.endpoint
    && e.src.at.track in infra.tracks && !Detected(infra.detectors, e.src.at.track)
  }

  ghost predicate SwitchEdge(infra: Infra, e: Edge) {
    e.kind.Switch? && Joins(infra, e.kind.id, e.kind.port, e.src, e.dst)
  }

  lemma TrackSectionEdgesAre(infra: Infra, order: seq<Identifier>, e: Edge)
    requires TrackOrder(infra, order)
    ensures e in TrackSectionEdges(infra, order)
            <==> DetectorEdge(infra.detectors, e) || BufferEdge(infra.bufferStops, e) || TrackEdge(infra, e)
  {
    var ds := infra.detectors;
    InDetectorEdges(ds, order, e);
    FromDetectorsIs(ds, e);
    InBufferEdges(infra.bufferStops, e);
    assert forall b :: e in BufferEdges(b) <==> BufferEdgeOf(b, e);
    InTrackEdges(infra.tracks, ds, e);
    forall t
      ensures OnTrack(ds, t) == [] <==> !Detected(ds, t)
    {
      LastIsLastMet(ds, t, t);
    }
    TrackEdgesAre(infra, e);
  }

  lemma TrackEdgesAre(infra: Infra, e: Edge)
    requires forall t :: OnTrack(infra.detectors, t) == [] <==> !Detected(infra.detectors, t)
    ensures (exists t :: t in infra.tracks && OnTrack(infra.detectors, t) == [] && e in Both(At(t, End), At(t, Begin), Track))
            <==> TrackEdge(infra, e)
  {
    if TrackEdge(infra, e) {
      var t := e.src.at.track;
      assert t in infra.tracks && OnTrack(infra.detectors, t) == [] && e in Both(At(t, End), At(t, Begin), Track);
    }
  }

  // ---------------------------------------------------------------------------------------------
  // The loaded graph
  // ---------------------------------------------------------------------------------------------

  ghost function Loaded(infra: Infra, order: seq<Identifier>): Network {
    Build(DeclaredEdges(infra, order))
  }

  /** The label between two nodes of the graph, if they are joined. */
  ghost function Label(g: Network, u: Node, v: Node): Option<EdgeType> {
    if (u, v) in g.edges then Some(g.edges[(u, v)]) else None
  }

  lemma LabelIsLastKind(infra: Infra, order: seq<Identifier>, u: Node, v: Node)
    ensures var ts, ss := LastKind(TrackSectionEdges(infra, order), u, v),
                          LastKind(AllSwitchEdges(infra.nodeTypes, infra.switches), u, v);
            Label(Loaded(infra, order), u, v) == if ss.Some? then ss else ts
  {
    BuildKeepsLastKind(DeclaredEdges(infra, order), u, v);
    LastKindOfConcat(TrackSectionEdges(infra, order), AllSwitchEdges(infra.nodeTypes, infra.switches), u, v);
  }

  lemma SwitchKind(infra: Infra, u: Node, v: Node)
    ensures var ss := LastKind(AllSwitchEdges(infra.nodeTypes, infra.switches), u, v);
            && (ss.Some? <==> SomeSwitchJoins(infra, u, v))
            && (ss.Some? ==> ss.value.Switch? && Joins(infra, ss.value.id, ss.value.port, u, v))
  {
    var es := AllSwitchEdges(infra.nodeTypes, infra.switches);
    var ss := LastKind(es, u, v);
    LastKindIsListed(es, u, v);
    if ss.Some? {
      InAllSwitchEdges(infra.nodeTypes, infra.switches, Edge(u, v, ss.value));
      assert Joins(infra, ss.value.id, ss.value.port, u, v);
    }
    if SomeSwitchJoins(infra, u, v) {
      var id, port :| Joins(infra, id, port, u, v);
      InAllSwitchEdges(infra.nodeTypes, infra.switches, Edge(u, v, Switch(id, port)));
      assert Edge(u, v, Switch(id, port)) in es;
    }
  }

  lemma JoinedAreEnds(infra: Infra, id: Identifier, port: Identifier, u: Node, v: Node)
    requires Joins(infra, id, port, u, v)
    ensures u.TrackEnd? && v.TrackEnd?
  {
  }

  lemma SectionKind(infra: Infra, order: seq<Identifier>, u: Node, v: Node, k: EdgeType)
    requires TrackOrder(infra, order)
    ensures LastKind(TrackSectionEdges(infra, order), u, v) == Some(k)
            <==> DetectorEdge(infra.detectors, Edge(u, v, k)) || BufferEdge(infra.bufferStops, Edge(u, v, k))
                 || TrackEdge(infra, Edge(u, v, k))
  {
    var es := TrackSectionEdges(infra, order);
    LastKindIsListed(es, u, v);
    TrackSectionEdgesAre(infra, order, Edge(u, v, k));
    var last := LastKind(es, u, v);
    if last.Some? {
      TrackSectionEdgesAre(infra, order, Edge(u, v, last.value));
      if Edge(u, v, k) in es {
        OneKind(infra, u, v, k, last.value);
      }
    }
  }

  /** The two nodes decide the kind of a track, detector or buffer-stop edge between them. */
  lemma OneKind(infra: Infra, u: Node, v: Node, k: EdgeType, k': EdgeType)
    requires forall x :: x == k || x == k' ==>
               DetectorEdge(infra.detectors, Edge(u, v, x)) || BufferEdge(infra.bufferStops, Edge(u, v, x))
               || TrackEdge(infra, Edge(u, v, x))
    ensures k == k'
  {
    assert DetectorEdge(infra.detectors, Edge(u, v, k)) || BufferEdge(infra.bufferStops, Edge(u, v, k)) || TrackEdge(infra, Edge(u, v, k));
    assert DetectorEdge(infra.detectors, Edge(u, v, k')) || BufferEdge(infra.bufferStops, Edge(u, v, k')) || TrackEdge(infra, Edge(u, v, k'));
  }

  /**
   The whole graph: two nodes are joined with a label exactly when a switch joins them and the label names such a
   switch and its port, or no switch does and a detector, a buffer stop or a bare track gives them that label.
   */
  lemma LabelIff(infra: Infra, order: seq<Identifier>, u: Node, v: Node, k: EdgeType)
    requires TrackOrder(infra, order)
    ensures Label(Loaded(infra, order), u, v) == Some(k) ==>
              if SomeSwitchJoins(infra, u, v) then SwitchEdge(infra, Edge(u, v, k))
              else DetectorEdge(infra.detectors, Edge(u, v, k)) || BufferEdge(infra.bufferStops, Edge(u, v, k))
                   || TrackEdge(infra, Edge(u, v, k))
    ensures SomeSwitchJoins(infra, u, v) ==>
              Label(Loaded(infra, order), u, v).Some? && Label(Loaded(infra, order), u, v).value.Switch?
    ensures !SomeSwitchJoins(infra, u, v) &&
            (DetectorEdge(infra.detectors, Edge(u, v, k)) || BufferEdge(infra.bufferStops, Edge(u, v, k))
             || TrackEdge(infra, Edge(u, v, k))) ==>
              Label(Loaded(infra, order), u, v) == Some(k)
  {
    LabelIsLastKind(infra, order, u, v);
    SwitchKind(infra, u, v);
    SectionKind(infra, order, u, v, k);
  }

  /** The successor lists say the same. */
  lemma SuccessorsAreJoined(infra: Infra, order: seq<Identifier>, u: Node, v: Node)
    ensures var g := Loaded(infra, order);
            u in g.successors && v in g.successors[u] <==> Label(g, u, v).Some?
  {
    DeclaredGraphIsCoherent(infra, order);
  }

  lemma NoSwitchAtWaypoint(infra: Infra, u: Node, v: Node)
    requires !u.TrackEnd? || !v.TrackEnd?
    ensures !SomeSwitchJoins(infra, u, v)
  {
    if SomeSwitchJoins(infra, u, v) {
      var id, port :| Joins(infra, id, port, u, v);
      JoinedAreEnds(infra, id, port, u, v);
    }
  }

  /**
   A buffer stop is joined, both ways, exactly to the end of its track it stands at: to the beginning with
   StartToStop when it is within the first ten centimetres, to the end with StopToStart otherwise.
   */
  lemma BufferStopsAreJoined(infra: Infra, order: seq<Identifier>, x: Identifier, v: Node)
    requires TrackOrder(infra, order)
    ensures var g := Loaded(infra, order);
            && (Label(g, BufferStop(x), v).Some? <==> exists b :: b in infra.bufferStops && b.id == x && EndOf(b) == v)
            && Label(g, v, BufferStop(x)) == Label(g, BufferStop(x), v)
            && (Label(g, BufferStop(x), v).Some? ==>
                  v.TrackEnd? && Label(g, BufferStop(x), v)
                                 == Some(Buffer(if v.at.endpoint == Begin then StartToStop else StopToStart)))
  {
    var u := BufferStop(x);
    NoSwitchAtWaypoint(infra, u, v);
    NoSwitchAtWaypoint(infra, v, u);
    var k := if v.TrackEnd? && v.at.endpoint == Begin then Buffer(StartToStop) else Buffer(StopToStart);
    LabelIff(infra, order, u, v, k);
    LabelIff(infra, order, v, u, k);
    var g := Loaded(infra, order);
    if Label(g, u, v).Some? {
      LabelIff(infra, order, u, v, Label(g, u, v).value);
    }
    if Label(g, v, u).Some? {
      LabelIff(infra, order, v, u, Label(g, v, u).value);
    }
    if b :| b in infra.bufferStops && b.id == x && EndOf(b) == v {
      assert BufferEdgeOf(b, Edge(u, v, k)) && BufferEdgeOf(b, Edge(v, u, k));
    }
  }

  /**
   Going from start to end, a track leads to its last detector and from there, with StartToStop, to its end; going
   back, to its first detector and from there, with StopToStart, to its beginning.  There is no other way to or
   from a detector.
   */
  lemma DetectorsAreJoined(infra: Infra, order: seq<Identifier>, x: Identifier, v: Node)
    requires TrackOrder(infra, order)
    ensures var g, ds := Loaded(infra, order), infra.detectors;
            && Label(g, v, Detector(x)) ==
                 (if v.TrackEnd? && (if v.at.endpoint == Begin then LastIs(ds, v.at.track, x) else FirstIs(ds, v.at.track, x))
                  then Some(ToDetector) else None)
            && Label(g, Detector(x), v) ==
                 if v.TrackEnd? && v.at.endpoint == End && LastIs(ds, v.at.track, x) then Some(FromDetector(StartToStop))
                 else if v.TrackEnd? && v.at.endpoint == Begin && FirstIs(ds, v.at.track, x) then Some(FromDetector(StopToStart))
                 else None
  {
    var g, u := Loaded(infra, order), Detector(x);
    NoSwitchAtWaypoint(infra, u, v);
    NoSwitchAtWaypoint(infra, v, u);
    LabelIff(infra, order, v, u, ToDetector);
    LabelIff(infra, order, u, v, FromDetector(StartToStop));
    LabelIff(infra, order, u, v, FromDetector(StopToStart));
    if Label(g, u, v).Some? {
      LabelIff(infra, order, u, v, Label(g, u, v).value);
    }
    if Label(g, v, u).Some? {
      LabelIff(infra, order, v, u, Label(g, v, u).value);
    }
  }

  /** A track with detectors has a last and a first one. */
  lemma DetectedTrackHasBoth(ds: seq<DetectorOn>, t: Identifier)
    requires Detected(ds, t)
    ensures exists x :: LastIs(ds, t, x)
    ensures exists x :: FirstIs(ds, t, x)
  {
    LastIsLastMet(ds, t, t);
    var n, k := MetAreLastAndFirst(ds, t);
    assert LastIs(ds, t, ds[n].id) && FirstIs(ds, t, ds[k].id);
  }

  /**
   Two track endpoints are joined exactly when a switch joins them, and then the label names a switch that does and
   its port, or when they are the two ends of a track without detectors, and then the label says so.
   */
  lemma EndpointsAreJoined(infra: Infra, order: seq<Identifier>, a: TrackEndpoint, b: TrackEndpoint)
    requires TrackOrder(infra, order)
    ensures var g, u, v := Loaded(infra, order), TrackEnd(a), TrackEnd(b);
            var bare := a.track == b.track && a.endpoint != b.endpoint && a.track in infra.tracks
                        && !Detected(infra.detectors, a.track);
            if SomeSwitchJoins(infra, u, v) then
              Label(g, u, v).Some? && Label(g, u, v).value.Switch?
              && Joins(infra, Label(g, u, v).value.id, Label(g, u, v).value.port, u, v)
            else Label(g, u, v) == if bare then Some(Track) else None
  {
    var g, u, v := Loaded(infra, order), TrackEnd(a), TrackEnd(b);
    LabelIff(infra, order, u, v, Track);
    if Label(g, u, v).Some? {
      LabelIff(infra, order, u, v, Label(g, u, v).value);
    }
  }

  /** Loading succeeds exactly when every switch has a known type and a port for each connection of that type. */
  ghost predicate WellFormed(infra: Infra) {
    forall n :: 0 <= n < |infra.switches| ==> HasItsType(infra, n)
  }

  ghost predicate HasItsType(infra: Infra, n: nat)
    requires n < |infra.switches|
  {
    exists i: nat :: SwitchHasType(infra, n, i)
  }

  ghost predicate SwitchHasType(infra: Infra, n: nat, i: nat)
    requires n < |infra.switches|
  {
    var s := infra.switches[n];
    TypeAt(infra.nodeTypes, s.nodeType, i)
    && forall group, c :: group in infra.nodeTypes[i].groups && c in group.connections ==> c.src in s.ports && c.dst in s.ports
  }

  lemma {:induction false} GroupsOkIff(s: SwitchOn, groups: seq<Group>)
    ensures GroupsOk(s, groups)
            <==> forall group, c :: group in groups && c in group.connections ==> c.src in s.ports && c.dst in s.ports
  {
    if groups != [] {
      var init, last := groups[..|groups| - 1], groups[|groups| - 1];
      GroupsOkIff(s, init);
      assert groups == init + [last];
    }
  }

  lemma SwitchOkIff(infra: Infra, n: nat)
    requires n < |infra.switches|
    ensures SwitchOk(infra.nodeTypes, infra.switches[n]) <==> HasItsType(infra, n)
  {
    var s := infra.switches[n];
    TypeOfIs(infra.nodeTypes, s.nodeType);
    var t := TypeOf(infra.nodeTypes, s.nodeType);
    if t.Some? {
      GroupsOkIff(s, t.value.groups);
      var i: nat :| TypeAt(infra.nodeTypes, s.nodeType, i) && infra.nodeTypes[i] == t.value;
      if SwitchOk(infra.nodeTypes, s) {
        assert SwitchHasType(infra, n, i);
      }
      if j: nat :| SwitchHasType(infra, n, j) {
        TypeIsUnique(infra.nodeTypes, s.nodeType, i, j);
      }
    }
  }

  lemma {:induction false} AllOkIff(types: seq<NodeType>, ss: seq<SwitchOn>)
    ensures AllOk(types, ss) <==> forall n :: 0 <= n < |ss| ==> SwitchOk(types, ss[n])
  {
    if ss != [] {
      AllOkIff(types, ss[..|ss| - 1]);
    }
  }

  lemma SwitchesOkIff(infra: Infra)
    ensures SwitchesOk(infra) <==> WellFormed(infra)
  {
    AllOkIff(infra.nodeTypes, infra.switches);
    forall n | 0 <= n < |infra.switches|
      ensures SwitchOk(infra.nodeTypes, infra.switches[n]) <==> HasItsType(infra, n)
    {
      SwitchOkIff(infra, n);
    }
  }

  /** The endpoint and the direction in which a waypoint is left. */
  ghost predicate LeftAsDeclared(infra: Infra, start: Node, next: Node, d: Direction) {
    && next.TrackEnd?
    && match start
       case BufferStop(x) =>
         && (exists b :: b in infra.bufferStops && b.id == x && EndOf(b) == next)
         && d == if next.at.endpoint == Begin then StartToStop else StopToStart
       case Detector(x) =>
         if next.at.endpoint == End then LastIs(infra.detectors, next.at.track, x) && d == StartToStop
         else FirstIs(infra.detectors, next.at.track, x) && d == StopToStart
       case TrackEnd(_) => false
  }

  /** The endpoint from which a waypoint is reached. */
  ghost predicate ReachedAsDeclared(infra: Infra, previous: Node, end: Node) {
    && previous.TrackEnd?
    && match end
       case BufferStop(x) => exists b :: b in infra.bufferStops && b.id == x && EndOf(b) == previous
       case Detector(x) =>
         if previous.at.endpoint == Begin then LastIs(infra.detectors, previous.at.track, x)
         else FirstIs(infra.detectors, previous.at.track, x)
       case TrackEnd(_) => false
  }

  lemma WaypointEdge(infra: Infra, order: seq<Identifier>, w: Node, v: Node)
    requires TrackOrder(infra, order) && !w.TrackEnd?
    ensures var g := Loaded(infra, order);
            && (Label(g, w, v).Some? ==>
                  forall d :: Leaves(Label(g, w, v).value, d) ==> LeftAsDeclared(infra, w, v, d))
            && (Label(g, v, w).Some? ==> ReachedAsDeclared(infra, v, w))
  {
    if w.BufferStop? {
      BufferStopsAreJoined(infra, order, w.id, v);
    } else {
      DetectorsAreJoined(infra, order, w.id, v);
    }
  }

  /**
   In the terms of the infrastructure: a route leaves its entry point to the end of the track that stands behind it
   in the direction it is labelled with, and comes to its exit point from the end of the track before it.
   */
  lemma RouteEndsAsDeclared(infra: Infra, order: seq<Identifier>, r: Route, p: seq<Node>, count: nat)
    requires TrackOrder(infra, order) && Describes(Loaded(infra, order), r, p, count)
    ensures LeftAsDeclared(infra, p[0], p[1], r.entryPointDirection)
    ensures ReachedAsDeclared(infra, p[|p| - 2], p[|p| - 1])
  {
    var g := Loaded(infra, order);
    assert Joined(g, p, 0) && Joined(g, p, |p| - 2);
    assert EdgeOn(g, p, 0) == Label(g, p[0], p[1]).value;
    WaypointEdge(infra, order, p[0], p[1]);
    WaypointEdge(infra, order, p[|p| - 1], p[|p| - 2]);
  }
}
