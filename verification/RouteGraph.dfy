/**
 The graph in which routes are searched: track endpoints, detectors and buffer stops, joined by the edges
 that an infrastructure declares.
 */
module RouteGraph {
  import opened Options
  import opened Sequences

  datatype Identifier = Identifier(text: string)
  datatype Endpoint = Begin | End
  datatype Direction = StartToStop | StopToStart
  datatype TrackEndpoint = TrackEndpoint(track: Identifier, endpoint: Endpoint)

  datatype Node = TrackEnd(at: TrackEndpoint) | Detector(id: Identifier) | BufferStop(id: Identifier)

  datatype EdgeType =
    | Switch(id: Identifier, port: Identifier)
    | Track
    | Buffer(direction: Direction)
    | ToDetector
    | FromDetector(direction: Direction)

  // The part of an infrastructure the routes depend on; positions are millimetres from the track's start.

  datatype DetectorOn = DetectorOn(id: Identifier, track: Identifier, position: int)
  datatype BufferOn = BufferOn(id: Identifier, track: Identifier, position: int)
  datatype Connection = Connection(src: Identifier, dst: Identifier)
  datatype Group = Group(port: Identifier, connections: seq<Connection>)
  datatype NodeType = NodeType(id: Identifier, groups: seq<Group>)
  datatype SwitchOn = SwitchOn(id: Identifier, nodeType: Identifier, ports: map<Identifier, TrackEndpoint>)

  datatype Infra = Infra(
    tracks: seq<Identifier>,
    detectors: seq<DetectorOn>,
    bufferStops: seq<BufferOn>,
    switches: seq<SwitchOn>,
    nodeTypes: seq<NodeType>)

  /** The graph as a value: the successors of each node and the label of each edge. */
  datatype Network = Network(successors: map<Node, seq<Node>>, edges: map<(Node, Node), EdgeType>)

  datatype Edge = Edge(src: Node, dst: Node, kind: EdgeType)

  function At(track: Identifier, endpoint: Endpoint): Node {
    TrackEnd(TrackEndpoint(track, endpoint))
  }

  // ---------------------------------------------------------------------------------------------
  // The edges an infrastructure declares
  // ---------------------------------------------------------------------------------------------

  function Both(u: Node, v: Node, kind: EdgeType): seq<Edge> {
    [Edge(u, v, kind), Edge(v, u, kind)]
  }

  /** The key by which detectors are compared: millimetres, with negative positions read as zero. */
  function PositionKey(d: DetectorOn): nat {
    if d.position < 0 then 0 else d.position
  }

  function OnTrack(ds: seq<DetectorOn>, track: Identifier): seq<DetectorOn> {
    if ds == [] then []
    else if ds[|ds| - 1].track == track then OnTrack(ds[..|ds| - 1], track) + [ds[|ds| - 1]]
    else OnTrack(ds[..|ds| - 1], track)
  }

  /** The detector met last when going to the end of the track: of several, the last listed. */
  function LastMet(ds: seq<DetectorOn>): (r: nat)
    requires ds != []
    ensures r < |ds|
    ensures forall j :: 0 <= j < |ds| ==> PositionKey(ds[j]) <= PositionKey(ds[r])
    ensures forall j :: r < j < |ds| ==> PositionKey(ds[j]) < PositionKey(ds[r])
  {
    if |ds| == 1 then 0 else
      var r := LastMet(ds[..|ds| - 1]);
      if PositionKey(ds[r]) <= PositionKey(ds[|ds| - 1]) then |ds| - 1 else r
  }

  /** The detector met last when going to the start of the track: of several, the first listed. */
  function FirstMet(ds: seq<DetectorOn>): (r: nat)
    requires ds != []
    ensures r < |ds|
    ensures forall j :: 0 <= j < |ds| ==> PositionKey(ds[r]) <= PositionKey(ds[j])
    ensures forall j :: 0 <= j < r ==> PositionKey(ds[r]) < PositionKey(ds[j])
  {
    if |ds| == 1 then 0 else
      var r := FirstMet(ds[..|ds| - 1]);
      if PositionKey(ds[|ds| - 1]) < PositionKey(ds[r]) then |ds| - 1 else r
  }

  /** In each direction only the last detector met carries edges; the others delimit blocks. */
  function DetectorEdges(track: Identifier, here: seq<DetectorOn>): seq<Edge>
    requires here != []
  {
    var forward, backward := Detector(here[LastMet(here)].id), Detector(here[FirstMet(here)].id);
    [Edge(At(track, Begin), forward, ToDetector), Edge(forward, At(track, End), FromDetector(StartToStop)),
     Edge(At(track, End), backward, ToDetector), Edge(backward, At(track, Begin), FromDetector(StopToStart))]
  }

  ghost function AllDetectorEdges(ds: seq<DetectorOn>, tracks: seq<Identifier>): seq<Edge> {
    if tracks == [] then [] else
      var t := tracks[|tracks| - 1];
      AllDetectorEdges(ds, tracks[..|tracks| - 1])
      + if OnTrack(ds, t) == [] then [] else DetectorEdges(t, OnTrack(ds, t))
  }

  function BufferEdges(b: BufferOn): seq<Edge> {
    if b.position < 100 then Both(BufferStop(b.id), At(b.track, Begin), Buffer(StartToStop))
    else Both(BufferStop(b.id), At(b.track, End), Buffer(StopToStart))
  }

  ghost function AllBufferEdges(bs: seq<BufferOn>): seq<Edge> {
    if bs == [] then [] else AllBufferEdges(bs[..|bs| - 1]) + BufferEdges(bs[|bs| - 1])
  }

  /** A track is crossed whole only when no detector splits it. */
  ghost function AllTrackEdges(tracks: seq<Identifier>, ds: seq<DetectorOn>): seq<Edge> {
    if tracks == [] then [] else
      var t := tracks[|tracks| - 1];
      AllTrackEdges(tracks[..|tracks| - 1], ds)
      + if OnTrack(ds, t) == [] then Both(At(t, End), At(t, Begin), Track) else []
  }

  function TypeOf(types: seq<NodeType>, id: Identifier): Option<NodeType> {
    if types == [] then None else if types[0].id == id then Some(types[0]) else TypeOf(types[1..], id)
  }

  predicate ConnectionOk(s: SwitchOn, c: Connection) {
    c.src in s.ports && c.dst in s.ports
  }

  ghost predicate GroupOk(s: SwitchOn, g: Group) {
    forall c :: c in g.connections ==> ConnectionOk(s, c)
  }

  ghost predicate GroupsOk(s: SwitchOn, groups: seq<Group>) {
    groups == [] || (GroupsOk(s, groups[..|groups| - 1]) && GroupOk(s, groups[|groups| - 1]))
  }

  /** One group with a missing port spoils the switch. */
  lemma {:induction false} GroupsOkAt(s: SwitchOn, groups: seq<Group>, n: nat)
    requires GroupsOk(s, groups) && n < |groups|
    ensures GroupOk(s, groups[n])
    decreases |groups|
  {
    if n < |groups| - 1 {
      GroupsOkAt(s, groups[..|groups| - 1], n);
    }
  }

  /** The switch has a known type and all the ports its type connects. */
  ghost predicate SwitchOk(types: seq<NodeType>, s: SwitchOn) {
    var t := TypeOf(types, s.nodeType);
    t.Some? && GroupsOk(s, t.value.groups)
  }

  ghost predicate AllOk(types: seq<NodeType>, ss: seq<SwitchOn>) {
    ss == [] || (AllOk(types, ss[..|ss| - 1]) && SwitchOk(types, ss[|ss| - 1]))
  }

  lemma {:induction false} AllOkAt(types: seq<NodeType>, ss: seq<SwitchOn>, n: nat)
    requires AllOk(types, ss) && n < |ss|
    ensures SwitchOk(types, ss[n])
    decreases |ss|
  {
    if n < |ss| - 1 {
      AllOkAt(types, ss[..|ss| - 1], n);
    }
  }

  ghost predicate SwitchesOk(infra: Infra) {
    AllOk(infra.nodeTypes, infra.switches)
  }

  ghost function GroupEdges(s: SwitchOn, port: Identifier, cs: seq<Connection>): seq<Edge> {
    if cs == [] then [] else
      var c := cs[|cs| - 1];
      GroupEdges(s, port, cs[..|cs| - 1])
      + if ConnectionOk(s, c) then Both(TrackEnd(s.ports[c.src]), TrackEnd(s.ports[c.dst]), Switch(s.id, port))
        else []
  }

  ghost function SwitchEdges(s: SwitchOn, groups: seq<Group>): seq<Edge> {
    if groups == [] then [] else
      SwitchEdges(s, groups[..|groups| - 1])
      + GroupEdges(s, groups[|groups| - 1].port, groups[|groups| - 1].connections)
  }

  ghost function TypedSwitchEdges(types: seq<NodeType>, s: SwitchOn): seq<Edge> {
    var t := TypeOf(types, s.nodeType);
    if t.Some? then SwitchEdges(s, t.value.groups) else []
  }

  ghost function AllSwitchEdges(types: seq<NodeType>, ss: seq<SwitchOn>): seq<Edge> {
    if ss == [] then [] else
      AllSwitchEdges(types, ss[..|ss| - 1]) + TypedSwitchEdges(types, ss[|ss| - 1])
  }

  ghost function TracksOf(ds: seq<DetectorOn>): set<Identifier> {
    set d | d in ds :: d.track
  }

  ghost function TrackSectionEdges(infra: Infra, order: seq<Identifier>): seq<Edge> {
    AllDetectorEdges(infra.detectors, order)
    + AllBufferEdges(infra.bufferStops)
    + AllTrackEdges(infra.tracks, infra.detectors)
  }

  /** Every edge the infrastructure declares, its tracks with detectors being taken in the given order. */
  ghost function DeclaredEdges(infra: Infra, order: seq<Identifier>): seq<Edge> {
    TrackSectionEdges(infra, order) + AllSwitchEdges(infra.nodeTypes, infra.switches)
  }

  /** The tracks with detectors, each once: the detectors are grouped in a hash map, of arbitrary order. */
  ghost predicate TrackOrder(infra: Infra, order: seq<Identifier>) {
    Distinct(order) && forall t :: t in order <==> t in TracksOf(infra.detectors)
  }

  // ---------------------------------------------------------------------------------------------
  // What the graph keeps of the declared edges
  // ---------------------------------------------------------------------------------------------

  /** The kind of an edge is fixed by the kinds of its ends, up to crossing a track or a switch. */
  predicate KindFits(u: Node, v: Node, kind: EdgeType) {
    match kind
    case Switch(_, _) => u.TrackEnd? && v.TrackEnd?
    case Track => u.TrackEnd? && v.TrackEnd?
    case Buffer(_) => (u.BufferStop? && v.TrackEnd?) || (u.TrackEnd? && v.BufferStop?)
    case ToDetector => u.TrackEnd? && v.Detector?
    case FromDetector(_) => u.Detector? && v.TrackEnd?
  }

  /** The successor lists and the edge labels describe the same edges, each of a fitting kind. */
  ghost predicate Coherent(g: Network) {
    && (forall u, v :: u in g.successors && v in g.successors[u] ==> (u, v) in g.edges)
    && (forall p :: p in g.edges ==>
          && p.0 in g.successors && p.1 in g.successors[p.0]
          && KindFits(p.0, p.1, g.edges[p]))
  }

  function Insert(g: Network, e: Edge): Network {
    Network(
      g.successors[e.src := (if e.src in g.successors then g.successors[e.src] else []) + [e.dst]],
      g.edges[(e.src, e.dst) := e.kind])
  }

  /** The graph obtained by adding edges one after the other. */
  ghost function Build(es: seq<Edge>): Network {
    if es == [] then Network(map[], map[]) else Insert(Build(es[..|es| - 1]), es[|es| - 1])
  }

  /** The kind of the last of the edges that joins `u` to `v`. */
  ghost function LastKind(es: seq<Edge>, u: Node, v: Node): Option<EdgeType> {
    if es == [] then None
    else if es[|es| - 1].src == u && es[|es| - 1].dst == v then Some(es[|es| - 1].kind)
    else LastKind(es[..|es| - 1], u, v)
  }

  ghost predicate AllFit(es: seq<Edge>) {
    forall e :: e in es ==> KindFits(e.src, e.dst, e.kind)
  }

  lemma InsertKeepsCoherent(g: Network, e: Edge)
    requires Coherent(g) && KindFits(e.src, e.dst, e.kind)
    ensures Coherent(Insert(g, e))
  {
  }

  /** A graph built of fitting edges is coherent, and each label is that of the last edge added. */
  lemma {:induction false} BuildIsCoherent(es: seq<Edge>)
    requires AllFit(es)
    ensures Coherent(Build(es))
  {
    if es != [] {
      BuildIsCoherent(es[..|es| - 1]);
      InsertKeepsCoherent(Build(es[..|es| - 1]), es[|es| - 1]);
    }
  }

  lemma {:induction false} BuildKeepsLastKind(es: seq<Edge>, u: Node, v: Node)
    ensures var g := Build(es);
            LastKind(es, u, v) == if (u, v) in g.edges then Some(g.edges[(u, v)]) else None
  {
    if es != [] {
      BuildKeepsLastKind(es[..|es| - 1], u, v);
    }
  }

  /** Where the edges out of a node lead, in the order they were added. */
  ghost function Heads(es: seq<Edge>, u: Node): seq<Node> {
    if es == [] then [] else (if es[0].src == u then [es[0].dst] else []) + Heads(es[1..], u)
  }

  lemma {:induction false} HeadsSnoc(es: seq<Edge>, e: Edge, u: Node)
    ensures Heads(es + [e], u) == Heads(es, u) + (if e.src == u then [e.dst] else [])
  {
    if es == [] {
      assert Heads([e], u) == (if e.src == u then [e.dst] else []) + Heads([e][1..], u);
    } else {
      assert (es + [e])[1..] == es[1..] + [e];
      HeadsSnoc(es[1..], e, u);
    }
  }

  /** The successors of a node are where its edges lead, each as often and in the order they were added. */
  lemma {:induction false} BuildKeepsHeads(es: seq<Edge>, u: Node)
    ensures var g := Build(es);
            Heads(es, u) == if u in g.successors then g.successors[u] else []
  {
    if es != [] {
      var init, e := es[..|es| - 1], es[|es| - 1];
      BuildKeepsHeads(init, u);
      assert es == init + [e];
      HeadsSnoc(init, e, u);
    }
  }

  lemma {:induction false} LastKindOfConcat(es: seq<Edge>, fs: seq<Edge>, u: Node, v: Node)
    ensures LastKind(es + fs, u, v) == if LastKind(fs, u, v).Some? then LastKind(fs, u, v) else LastKind(es, u, v)
  {
    if fs == [] {
      assert es + fs == es;
    } else {
      assert (es + fs)[..|es + fs| - 1] == es + fs[..|fs| - 1];
      LastKindOfConcat(es, fs[..|fs| - 1], u, v);
    }
  }

  // Every declared edge is of a fitting kind

  lemma {:induction false} DetectorEdgesFit(ds: seq<DetectorOn>, tracks: seq<Identifier>)
    ensures AllFit(AllDetectorEdges(ds, tracks))
  {
    if tracks != [] {
      DetectorEdgesFit(ds, tracks[..|tracks| - 1]);
      var t := tracks[|tracks| - 1];
      assert OnTrack(ds, t) != [] ==> AllFit(DetectorEdges(t, OnTrack(ds, t)));
    }
  }

  lemma {:induction false} BufferEdgesFit(bs: seq<BufferOn>)
    ensures AllFit(AllBufferEdges(bs))
  {
    if bs != [] {
      BufferEdgesFit(bs[..|bs| - 1]);
    }
  }

  lemma {:induction false} TrackEdgesFit(tracks: seq<Identifier>, ds: seq<DetectorOn>)
    ensures AllFit(AllTrackEdges(tracks, ds))
  {
    if tracks != [] {
      TrackEdgesFit(tracks[..|tracks| - 1], ds);
    }
  }

  lemma {:induction false} GroupEdgesFit(s: SwitchOn, port: Identifier, cs: seq<Connection>)
    ensures AllFit(GroupEdges(s, port, cs))
    ensures forall e :: e in GroupEdges(s, port, cs) ==> e.kind.Switch?
  {
    if cs != [] {
      GroupEdgesFit(s, port, cs[..|cs| - 1]);
    }
  }

  lemma {:induction false} OneSwitchEdgesFit(s: SwitchOn, groups: seq<Group>)
    ensures AllFit(SwitchEdges(s, groups))
    ensures forall e :: e in SwitchEdges(s, groups) ==> e.kind.Switch?
  {
    if groups != [] {
      OneSwitchEdgesFit(s, groups[..|groups| - 1]);
      GroupEdgesFit(s, groups[|groups| - 1].port, groups[|groups| - 1].connections);
    }
  }

  lemma {:induction false} SwitchEdgesFit(types: seq<NodeType>, ss: seq<SwitchOn>)
    ensures AllFit(AllSwitchEdges(types, ss))
    ensures forall e :: e in AllSwitchEdges(types, ss) ==> e.kind.Switch?
  {
    if ss != [] {
      SwitchEdgesFit(types, ss[..|ss| - 1]);
      var t := TypeOf(types, ss[|ss| - 1].nodeType);
      if t.Some? {
        OneSwitchEdgesFit(ss[|ss| - 1], t.value.groups);
      }
    }
  }

  /** The graph of any infrastructure is coherent. */
  lemma DeclaredGraphIsCoherent(infra: Infra, order: seq<Identifier>)
    ensures Coherent(Build(DeclaredEdges(infra, order)))
  {
    DetectorEdgesFit(infra.detectors, order);
    BufferEdgesFit(infra.bufferStops);
    TrackEdgesFit(infra.tracks, infra.detectors);
    SwitchEdgesFit(infra.nodeTypes, infra.switches);
    BuildIsCoherent(DeclaredEdges(infra, order));
  }

  lemma {:induction false} LastKindIsListed(es: seq<Edge>, u: Node, v: Node)
    ensures LastKind(es, u, v).Some? ==> Edge(u, v, LastKind(es, u, v).value) in es
    ensures (exists k :: Edge(u, v, k) in es) ==> LastKind(es, u, v).Some?
  {
    if es != [] {
      var shorter, e := es[..|es| - 1], es[|es| - 1];
      LastKindIsListed(shorter, u, v);
      forall k | Edge(u, v, k) in es
        ensures Edge(u, v, k) in shorter || Edge(u, v, k) == e
      {
        assert es == shorter + [e];
      }
    }
  }

  /** Two endpoints that a switch joins are crossed through a switch, even on one and the same track. */
  lemma SwitchHidesTrack(infra: Infra, order: seq<Identifier>, e: Edge)
    requires e in AllSwitchEdges(infra.nodeTypes, infra.switches)
    ensures var g := Build(DeclaredEdges(infra, order));
            (e.src, e.dst) in g.edges && g.edges[(e.src, e.dst)].Switch?
  {
    var ss := AllSwitchEdges(infra.nodeTypes, infra.switches);
    SwitchEdgesFit(infra.nodeTypes, infra.switches);
    assert Edge(e.src, e.dst, e.kind) in ss;
    LastKindIsListed(ss, e.src, e.dst);
    LastKindOfConcat(TrackSectionEdges(infra, order), ss, e.src, e.dst);
    BuildKeepsLastKind(DeclaredEdges(infra, order), e.src, e.dst);
  }

  ghost predicate GroupedBy(ds: seq<DetectorOn>, byTrack: map<Identifier, seq<DetectorOn>>) {
    && byTrack.Keys == TracksOf(ds)
    && forall t :: t in byTrack ==> byTrack[t] != [] && byTrack[t] == OnTrack(ds, t)
  }

  lemma {:induction false} OnTrackEmpty(ds: seq<DetectorOn>, t: Identifier)
    ensures OnTrack(ds, t) == [] <==> t !in TracksOf(ds)
  {
    if ds != [] {
      OnTrackEmpty(ds[..|ds| - 1], t);
      assert ds == ds[..|ds| - 1] + [ds[|ds| - 1]];
    }
  }

  /** Lists the detectors of each track, in the order they are declared. */
  method GroupDetectors(ds: seq<DetectorOn>) returns (byTrack: map<Identifier, seq<DetectorOn>>)
    ensures GroupedBy(ds, byTrack)
  {
    byTrack := map[];
    for n := 0 to |ds|
      invariant forall t :: t in byTrack <==> OnTrack(ds[..n], t) != []
      invariant forall t :: t in byTrack ==> byTrack[t] == OnTrack(ds[..n], t)
    {
      assert ds[..n + 1][..n] == ds[..n];
      var t := ds[n].track;
      byTrack := byTrack[t := (if t in byTrack then byTrack[t] else []) + [ds[n]]];
    }
    Whole(ds);
    forall t
      ensures t in byTrack <==> t in TracksOf(ds)
    {
      OnTrackEmpty(ds, t);
    }
  }

  /** The edges of one more switch come after those of the switches before it. */
  lemma NextSwitch(before: seq<Edge>, types: seq<NodeType>, ss: seq<SwitchOn>, n: nat, sofar: seq<Edge>)
    requires n < |ss| && sofar == before + AllSwitchEdges(types, ss[..n])
    ensures before + AllSwitchEdges(types, ss[..n + 1]) == sofar + TypedSwitchEdges(types, ss[n])
  {
    Prefix(ss, n);
    Assoc(before, AllSwitchEdges(types, ss[..n]), TypedSwitchEdges(types, ss[n]));
  }

  class Graph {
    var successors: map<Node, seq<Node>>
    var edges: map<(Node, Node), EdgeType>
    /** Every edge added so far, in order. */
    ghost var added: seq<Edge>

    ghost function Contents(): Network
      reads this
    {
      Network(successors, edges)
    }

    ghost predicate Valid()
      reads this
    {
      Contents() == Build(added)
    }

    constructor ()
      ensures Valid() && added == []
    {
      successors := map[];
      edges := map[];
      added := [];
    }

    method AddDirectedEdge(u: Node, v: Node, kind: EdgeType)
      requires Valid()
      modifies this
      ensures Valid() && added == old(added) + [Edge(u, v, kind)]
    {
      edges := edges[(u, v) := kind];
      successors := successors[u := (if u in successors then successors[u] else []) + [v]];
      added := added + [Edge(u, v, kind)];
    }

    method AddSymmetricalEdge(u: Node, v: Node, kind: EdgeType)
      requires Valid()
      modifies this
      ensures Valid() && added == old(added) + Both(u, v, kind)
    {
      AddDirectedEdge(u, v, kind);
      AddDirectedEdge(v, u, kind);
    }

    /** Adds, for each track with detectors, the edges to and from the last one met in each direction. */
    method EdgesFromDetectors(ds: seq<DetectorOn>, byTrack: map<Identifier, seq<DetectorOn>>)
      returns (ghost order: seq<Identifier>)
      requires Valid() && GroupedBy(ds, byTrack)
      modifies this
      ensures Valid() && added == old(added) + AllDetectorEdges(ds, order)
      ensures Distinct(order) && forall t :: t in order <==> t in TracksOf(ds)
    {
      var todo := byTrack.Keys;
      order := [];
      while todo != {}
        invariant Valid() && added == old(added) + AllDetectorEdges(ds, order)
        invariant Distinct(order) && todo <= byTrack.Keys
        invariant forall t :: t in order <==> t in byTrack && t !in todo
        decreases todo
      {
        var track :| track in todo;
        Assoc(old(added), AllDetectorEdges(ds, order), DetectorEdges(track, byTrack[track]));
        EdgesFromDetector(track, byTrack[track]);
        assert (order + [track])[..|order|] == order;
        todo, order := todo - {track}, order + [track];
      }
    }

    method EdgesFromDetector(track: Identifier, here: seq<DetectorOn>)
      requires Valid() && here != []
      modifies this
      ensures Valid() && added == old(added) + DetectorEdges(track, here)
    {
      var forward := Detector(here[LastMet(here)].id);
      AddDirectedEdge(At(track, Begin), forward, ToDetector);
      AddDirectedEdge(forward, At(track, End), FromDetector(StartToStop));
      var backward := Detector(here[FirstMet(here)].id);
      AddDirectedEdge(At(track, End), backward, ToDetector);
      AddDirectedEdge(backward, At(track, Begin), FromDetector(StopToStart));
    }

    method EdgesFromBufferStops(bs: seq<BufferOn>)
      requires Valid()
      modifies this
      ensures Valid() && added == old(added) + AllBufferEdges(bs)
    {
      for n := 0 to |bs|
        invariant Valid() && added == old(added) + AllBufferEdges(bs[..n])
      {
        Prefix(bs, n);
        Assoc(old(added), AllBufferEdges(bs[..n]), BufferEdges(bs[n]));
        var b := BufferStop(bs[n].id);
        if bs[n].position < 100 {
          AddSymmetricalEdge(b, At(bs[n].track, Begin), Buffer(StartToStop));
        } else {
          AddSymmetricalEdge(b, At(bs[n].track, End), Buffer(StopToStart));
        }
      }
      Whole(bs);
    }

    method EdgesFromTracks(tracks: seq<Identifier>, ghost ds: seq<DetectorOn>, byTrack: map<Identifier, seq<DetectorOn>>)
      requires Valid() && GroupedBy(ds, byTrack)
      modifies this
      ensures Valid() && added == old(added) + AllTrackEdges(tracks, ds)
    {
      for n := 0 to |tracks|
        invariant Valid() && added == old(added) + AllTrackEdges(tracks[..n], ds)
      {
        Prefix(tracks, n);
        Assoc(old(added), AllTrackEdges(tracks[..n], ds), Both(At(tracks[n], End), At(tracks[n], Begin), Track));
        OnTrackEmpty(ds, tracks[n]);
        if tracks[n] !in byTrack {
          AddSymmetricalEdge(At(tracks[n], End), At(tracks[n], Begin), Track);
        }
      }
      Whole(tracks);
    }

    method EdgesFromTrackSections(infra: Infra) returns (ghost order: seq<Identifier>)
      requires Valid()
      modifies this
      ensures Valid() && added == old(added) + TrackSectionEdges(infra, order)
      ensures TrackOrder(infra, order)
    {
      var byTrack := GroupDetectors(infra.detectors);
      order := EdgesFromDetectors(infra.detectors, byTrack);
      EdgesFromBufferStops(infra.bufferStops);
      EdgesFromTracks(infra.tracks, infra.detectors, byTrack);
      ghost var ds, bs := AllDetectorEdges(infra.detectors, order), AllBufferEdges(infra.bufferStops);
      Assoc(old(added), ds, bs);
      Assoc(old(added), ds + bs, AllTrackEdges(infra.tracks, infra.detectors));
    }

    /** The edges of one group of ports; fails on a missing port. */
    method EdgesFromGroup(s: SwitchOn, group: Group) returns (ok: bool)
      requires Valid()
      modifies this
      ensures Valid()
      ensures ok <==> GroupOk(s, group)
      ensures ok ==> added == old(added) + GroupEdges(s, group.port, group.connections)
    {
      var cs := group.connections;
      for n := 0 to |cs|
        invariant Valid()
        invariant forall c :: c in cs[..n] ==> ConnectionOk(s, c)
        invariant added == old(added) + GroupEdges(s, group.port, cs[..n])
      {
        Prefix(cs, n);
        if !ConnectionOk(s, cs[n]) {
          return false;
        }
        AddSymmetricalEdge(TrackEnd(s.ports[cs[n].src]), TrackEnd(s.ports[cs[n].dst]), Switch(s.id, group.port));
      }
      Whole(cs);
      return true;
    }

    method EdgesFromSwitch(types: seq<NodeType>, s: SwitchOn) returns (ok: bool)
      requires Valid()
      modifies this
      ensures Valid()
      ensures ok <==> SwitchOk(types, s)
      ensures ok ==> added == old(added) + TypedSwitchEdges(types, s)
    {
      var t := TypeOf(types, s.nodeType);
      if t.None? {
        return false;
      }
      var groups := t.value.groups;
      for n := 0 to |groups|
        invariant Valid() && GroupsOk(s, groups[..n])
        invariant added == old(added) + SwitchEdges(s, groups[..n])
      {
        Prefix(groups, n);
        Assoc(old(added), SwitchEdges(s, groups[..n]), GroupEdges(s, groups[n].port, groups[n].connections));
        ok := EdgesFromGroup(s, groups[n]);
        if !ok {
          if GroupsOk(s, groups) {
            GroupsOkAt(s, groups, n);
          }
          return;
        }
      }
      Whole(groups);
      return true;
    }

    /** The edges of every switch; fails on an unknown switch type or a missing port. */
    method EdgesFromSwitches(types: seq<NodeType>, ss: seq<SwitchOn>) returns (ok: bool)
      requires Valid()
      modifies this
      ensures Valid()
      ensures ok <==> AllOk(types, ss)
      ensures ok ==> added == old(added) + AllSwitchEdges(types, ss)
    {
      for n := 0 to |ss|
        invariant Valid()
        invariant AllOk(types, ss[..n])
        invariant added == old(added) + AllSwitchEdges(types, ss[..n])
      {
        NextSwitch(old(added), types, ss, n, added);
        Prefix(ss, n);
        ok := EdgesFromSwitch(types, ss[n]);
        if !ok {
          if AllOk(types, ss) {
            AllOkAt(types, ss, n);
          }
          return;
        }
      }
      Whole(ss);
      return true;
    }

    /** Loads an infrastructure: the graph is built of the edges it declares, tracks before switches. */
    method Load(infra: Infra) returns (ok: bool, ghost order: seq<Identifier>)
      requires Valid() && added == []
      modifies this
      ensures Valid()
      ensures ok <==> SwitchesOk(infra)
      ensures ok ==> TrackOrder(infra, order) && Contents() == Build(DeclaredEdges(infra, order))
    {
      order := EdgesFromTrackSections(infra);
      assert added == TrackSectionEdges(infra, order);
      ok := EdgesFromSwitches(infra.nodeTypes, infra.switches);
    }
  }
}
