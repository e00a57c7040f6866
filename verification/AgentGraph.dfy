/**
 From live calls to the drawn graph. The backend maps calls to agent nodes whose collaborators name
 each handoff on both ends; the browser splits the node ids apart again and draws each undirected
 handoff once, deduplicating by a joined string key. Neither loses nor invents a handoff.
 */
module AgentGraph {
  import opened Prelude
  import opened Text
  import opened LiveAgents

  // ---------------------------------------------------------------- the backend mapper

  /** The fields of a snapshot's agent entry that the browser reads. */
  datatype AgentNode = AgentNode(id: string, name: string, active: bool, action: string, collaborators: seq<string>)

  function Label(agent: string): string {
    if agent == "concierge" then "Concierge" else if agent == "property" then "Property" else "Scheduling"
  }

  function NodeId(room: string, agent: string): string {
    room + ":" + agent
  }

  /** A handoff between two specialists, in either direction. */
  predicate Handoff(c: Call, x: string, y: string) {
    (x, y) in c.edges || (y, x) in c.edges
  }

  /** The ids of an agent's collaborators in a call, in the order of the specialists. */
  function Collaborators(c: Call, agent: string): seq<string> {
    (if Handoff(c, agent, AGENTS[0]) then [NodeId(c.room, AGENTS[0])] else []) +
    (if Handoff(c, agent, AGENTS[1]) then [NodeId(c.room, AGENTS[1])] else []) +
    (if Handoff(c, agent, AGENTS[2]) then [NodeId(c.room, AGENTS[2])] else [])
  }

  function Node(c: Call, agent: string): AgentNode {
    AgentNode(NodeId(c.room, agent), Label(agent), agent == c.active,
              if agent == c.active then c.action else "", Collaborators(c, agent))
  }

  function CallNodes(c: Call): seq<AgentNode> {
    [Node(c, AGENTS[0]), Node(c, AGENTS[1]), Node(c, AGENTS[2])]
  }

  /** `to_snapshot`: three nodes per call, in order. */
  function ToSnapshot(calls: seq<Call>): (r: seq<AgentNode>)
    ensures |r| == 3 * |calls|
  {
    if calls == [] then [] else ToSnapshot(calls[..|calls| - 1]) + CallNodes(calls[|calls| - 1])
  }

  /** What the state endpoint lets into the registry: known specialists, no handoff to oneself. */
  ghost predicate WellFormed(c: Call) {
    c.active in AGENTS && forall e :: e in c.edges ==> e.0 in AGENTS && e.1 in AGENTS && e.0 != e.1
  }

  lemma AgentsAreOrdered()
    ensures AGENTS[0] == "concierge" && AGENTS[1] == "property" && AGENTS[2] == "scheduling"
    ensures Less(AGENTS[0], AGENTS[1]) && Less(AGENTS[0], AGENTS[2]) && Less(AGENTS[1], AGENTS[2])
    ensures !Less(AGENTS[1], AGENTS[0]) && !Less(AGENTS[2], AGENTS[0]) && !Less(AGENTS[2], AGENTS[1])
    ensures forall i :: 0 <= i < 3 ==> ':' !in AGENTS[i]
  {
    assert AGENTS[1][0] == 'p' && AGENTS[2][0] == 's' && AGENTS[0][0] == 'c';
  }

  /** The ids of two specialists in a room compare as the specialists do. */
  lemma IdsCompare(room: string, x: string, y: string)
    ensures Less(NodeId(room, x), NodeId(room, y)) == Less(x, y)
  {
    assert NodeId(room, x) == (room + ":") + x && NodeId(room, y) == (room + ":") + y;
    LessUnderPrefix(room + ":", x, y);
  }

  /** The collaborators come out in ascending order of their ids, as the backend sorts them. */
  lemma CollaboratorsSorted(c: Call, agent: string)
    ensures var s := Collaborators(c, agent); forall i, j :: 0 <= i < j < |s| ==> Less(s[i], s[j])
  {
    AgentsAreOrdered();
    IdsCompare(c.room, AGENTS[0], AGENTS[1]);
    IdsCompare(c.room, AGENTS[0], AGENTS[2]);
    IdsCompare(c.room, AGENTS[1], AGENTS[2]);
  }

  // ---------------------------------------------------------------- the browser reducer

  datatype GraphNode = GraphNode(id: string, specialist: string, caption: string, active: bool,
                                 action: string, room: string)

  datatype GraphEdge = GraphEdge(a: string, b: string)

  datatype Graph = Graph(nodes: seq<GraphNode>, edges: seq<GraphEdge>, liveCalls: nat, empty: bool)

  /** The part of an id after its last colon, when it names a specialist. */
  function SpecialistOf(id: string): Option<string> {
    var s := id[LastIndexOf(id, ':') + 1..];
    if s in AGENTS then Some(s) else None
  }

  /** The part of an id before its last colon; without a colon, all but the last character. */
  function RoomOf(id: string): string {
    var i := LastIndexOf(id, ':');
    if i >= 0 then id[..i] else if id == "" then "" else id[..|id| - 1]
  }

  function ToGraphNode(n: AgentNode): Option<GraphNode> {
    match SpecialistOf(n.id)
    case None => None
    case Some(s) =>
      Some(GraphNode(n.id, s, if n.name != "" then n.name else Label(s), n.active, n.action, RoomOf(n.id)))
  }

  function Nodes(agents: seq<AgentNode>): seq<GraphNode> {
    if agents == [] then []
    else
      var front := Nodes(agents[..|agents| - 1]);
      match ToGraphNode(agents[|agents| - 1])
      case Some(n) => front + [n]
      case None => front
  }

  function Ids(nodes: seq<GraphNode>): set<string> {
    set n | n in nodes :: n.id
  }

  function Rooms(nodes: seq<GraphNode>): set<string> {
    set n | n in nodes :: n.room
  }

  function Ordered(x: string, y: string): GraphEdge {
    if Less(x, y) then GraphEdge(x, y) else GraphEdge(y, x)
  }

  function EdgeKey(e: GraphEdge): string {
    e.a + "|" + e.b
  }

  /** The drawn edges and the keys already used. */
  datatype Drawn = Drawn(seen: set<string>, edges: seq<GraphEdge>)

  function Draw(d: Drawn, e: GraphEdge): Drawn {
    if EdgeKey(e) in d.seen then d else Drawn(d.seen + {EdgeKey(e)}, d.edges + [e])
  }

  /** One agent's links, first to last. */
  function DrawLinks(d: Drawn, id: string, links: seq<string>, known: set<string>): Drawn {
    if links == [] then d
    else
      var front := DrawLinks(d, id, links[..|links| - 1], known);
      var other := links[|links| - 1];
      if id in known && other in known then Draw(front, Ordered(id, other)) else front
  }

  function DrawAll(agents: seq<AgentNode>, known: set<string>): Drawn {
    if agents == [] then Drawn({}, [])
    else
      var last := agents[|agents| - 1];
      DrawLinks(DrawAll(agents[..|agents| - 1], known), last.id, last.collaborators, known)
  }

  function Derive(agents: seq<AgentNode>): Graph {
    var nodes := Nodes(agents);
    Graph(nodes, DrawAll(agents, Ids(nodes)).edges, |Rooms(nodes)|, nodes == [])
  }

  /** The loop that collects the nodes. */
  method CollectNodes(agents: seq<AgentNode>) returns (nodes: seq<GraphNode>)
    ensures nodes == Nodes(agents)
  {
    nodes := [];
    for i := 0 to |agents|
      invariant nodes == Nodes(agents[..i])
    {
      assert agents[..i + 1][..i] == agents[..i];
      var specialist := SpecialistOf(agents[i].id);
      if specialist.None? {
        continue;
      }
      nodes := nodes + [GraphNode(agents[i].id, specialist.value,
        if agents[i].name != "" then agents[i].name else Label(specialist.value),
        agents[i].active, agents[i].action, RoomOf(agents[i].id))];
    }
    assert agents[..|agents|] == agents;
  }

  /** The inner loop over one agent's collaborators. */
  method CollectLinks(a: AgentNode, known: set<string>, seen0: set<string>, edges0: seq<GraphEdge>)
    returns (seen: set<string>, edges: seq<GraphEdge>)
    ensures Drawn(seen, edges) == DrawLinks(Drawn(seen0, edges0), a.id, a.collaborators, known)
  {
    seen, edges := seen0, edges0;
    for j := 0 to |a.collaborators|
      invariant Drawn(seen, edges) == DrawLinks(Drawn(seen0, edges0), a.id, a.collaborators[..j], known)
    {
      assert a.collaborators[..j + 1][..j] == a.collaborators[..j];
      var other := a.collaborators[j];
      if a.id !in known || other !in known {
        continue;
      }
      var edge := if Less(a.id, other) then GraphEdge(a.id, other) else GraphEdge(other, a.id);
      if EdgeKey(edge) in seen {
        continue;
      }
      seen := seen + {EdgeKey(edge)};
      edges := edges + [edge];
    }
    assert a.collaborators[..|a.collaborators|] == a.collaborators;
  }

  lemma DrawStep(agents: seq<AgentNode>, i: nat, known: set<string>)
    requires i < |agents|
    ensures DrawAll(agents[..i + 1], known) ==
            DrawLinks(DrawAll(agents[..i], known), agents[i].id, agents[i].collaborators, known)
  {
    assert agents[..i + 1][..i] == agents[..i];
  }

  /** The loop that collects the edges between known nodes, each once. */
  method CollectEdges(agents: seq<AgentNode>, known: set<string>) returns (edges: seq<GraphEdge>)
    ensures edges == DrawAll(agents, known).edges
  {
    var seen: set<string>;
    seen, edges := {}, [];
    for i := 0 to |agents|
      invariant Drawn(seen, edges) == DrawAll(agents[..i], known)
    {
      DrawStep(agents, i, known);
      seen, edges := CollectLinks(agents[i], known, seen, edges);
    }
    assert agents[..|agents|] == agents;
  }

  /** `deriveGraph`: the nodes, the edges, and how many rooms are live. */
  method DeriveGraph(agents: seq<AgentNode>) returns (graph: Graph)
    ensures graph == Derive(agents)
  {
    var nodes := CollectNodes(agents);
    var edges := CollectEdges(agents, Ids(nodes));
    graph := Graph(nodes, edges, |Rooms(nodes)|, |nodes| == 0);
  }

  // ---------------------------------------------------------------- ids split apart again

  /** Splitting an id undoes joining it, whatever the room's name. */
  lemma SplitId(room: string, agent: string)
    requires agent in AGENTS
    ensures SpecialistOf(NodeId(room, agent)) == Some(agent) && RoomOf(NodeId(room, agent)) == room
  {
    AgentsAreOrdered();
    LastIndexOfSplit(room, ':', agent);
    assert NodeId(room, agent) == room + [':'] + agent;
    assert NodeId(room, agent)[|room| + 1..] == agent;
    assert NodeId(room, agent)[..|room|] == room;
  }

  /** An id names a specialist exactly when that is all of it or what follows its last colon. */
  lemma SpecialistOfIff(id: string, s: string)
    ensures SpecialistOf(id) == Some(s) <==>
      s in {"concierge", "property", "scheduling"} && (id == s || exists room :: id == room + [':'] + s)
  {
    InAgents(s);
    SplitsAtColon(id);
    if s in AGENTS && exists room :: id == room + [':'] + s {
      var room :| id == room + [':'] + s;
      AfterColon(room, s);
    }
  }

  lemma InAgents(s: string)
    ensures s in AGENTS <==> s in {"concierge", "property", "scheduling"}
    ensures s in AGENTS ==> ':' !in s
  {
    AgentsAreOrdered();
    assert s in AGENTS <==> s == AGENTS[0] || s == AGENTS[1] || s == AGENTS[2];
  }

  lemma SplitsAtColon(id: string)
    ensures var i := LastIndexOf(id, ':');
      if i < 0 then id[i + 1..] == id else id == id[..i] + [':'] + id[i + 1..]
  {
  }

  lemma AfterColon(room: string, s: string)
    requires s in AGENTS
    ensures SpecialistOf(room + [':'] + s) == Some(s)
  {
    InAgents(s);
    LastIndexOfSplit(room, ':', s);
    assert (room + [':'] + s)[|room| + 1..] == s;
  }

  /** A string splits at its last colon in one way. */
  lemma SplitOnce(left: string, y: string, left': string, y': string)
    requires ':' !in y && ':' !in y' && left + [':'] + y == left' + [':'] + y'
    ensures left == left' && y == y'
  {
    var s := left + [':'] + y;
    LastIndexOfSplit(left, ':', y);
    LastIndexOfSplit(left', ':', y');
    assert left == s[..|left|] && left' == s[..|left'|];
    assert y == s[|left| + 1..] && y' == s[|left'| + 1..];
  }

  /** What is left of a key without its last specialist determines room and first specialist, because
      the names that come first have lengths of different parity. */
  lemma LeftPart(room: string, x: string, room': string, x': string)
    requires |x| % 2 == |x'| % 2 ==> |x| == |x'|
    requires room + ":" + x + "|" + room == room' + ":" + x' + "|" + room'
    ensures room == room' && x == x'
  {
    var left := room + ":" + x + "|" + room;
    assert |left| == 2 * |room| + |x| + 2 == 2 * |room'| + |x'| + 2;
    assert room == left[..|room|] && room' == left[..|room'|];
    assert x == left[|room| + 1..|room| + 1 + |x|] && x' == left[|room'| + 1..|room'| + 1 + |x'|];
  }

  /** Two handoffs with the same key are the same handoff, whatever colons and bars the rooms' names
      contain. */
  lemma EdgeKeyInjective(room: string, x: string, y: string, room': string, x': string, y': string)
    requires x in AGENTS[..2] && x' in AGENTS[..2] && y in AGENTS && y' in AGENTS
    requires EdgeKey(GraphEdge(NodeId(room, x), NodeId(room, y))) ==
             EdgeKey(GraphEdge(NodeId(room', x'), NodeId(room', y')))
    ensures room == room' && x == x' && y == y'
  {
    AgentsAreOrdered();
    KeyShape(room, x, y);
    KeyShape(room', x', y');
    SplitOnce(room + ":" + x + "|" + room, y, room' + ":" + x' + "|" + room', y');
    FirstNames(x);
    FirstNames(x');
    LeftPart(room, x, room', x');
  }

  lemma KeyShape(room: string, x: string, y: string)
    ensures EdgeKey(GraphEdge(NodeId(room, x), NodeId(room, y))) == (room + ":" + x + "|" + room) + [':'] + y
  {
  }

  lemma FirstNames(x: string)
    requires x in AGENTS[..2]
    ensures |x| == 9 || |x| == 8
  {
  }

  // ---------------------------------------------------------------- nodes

  lemma NodesSnoc(agents: seq<AgentNode>, n: AgentNode)
    requires ToGraphNode(n).Some?
    ensures Nodes(agents + [n]) == Nodes(agents) + [ToGraphNode(n).value]
  {
    assert (agents + [n])[..|agents|] == agents;
  }

  /** The graph node of a call's specialist. */
  function Drawing(c: Call, agent: string): GraphNode {
    GraphNode(NodeId(c.room, agent), agent, Label(agent), agent == c.active,
              if agent == c.active then c.action else "", c.room)
  }

  lemma NodeIsDrawn(c: Call, agent: string)
    requires agent in AGENTS
    ensures ToGraphNode(Node(c, agent)) == Some(Drawing(c, agent))
  {
    SplitId(c.room, agent);
  }

  function Drawings(calls: seq<Call>): (r: seq<GraphNode>)
    ensures |r| == 3 * |calls|
  {
    if calls == [] then []
    else
      var c := calls[|calls| - 1];
      Drawings(calls[..|calls| - 1]) + [Drawing(c, AGENTS[0])] + [Drawing(c, AGENTS[1])] + [Drawing(c, AGENTS[2])]
  }

  lemma CallIsDrawn(agents: seq<AgentNode>, c: Call)
    ensures Nodes(agents + CallNodes(c)) ==
            Nodes(agents) + [Drawing(c, AGENTS[0])] + [Drawing(c, AGENTS[1])] + [Drawing(c, AGENTS[2])]
  {
    var n0, n1, n2 := Node(c, AGENTS[0]), Node(c, AGENTS[1]), Node(c, AGENTS[2]);
    assert agents + CallNodes(c) == agents + [n0] + [n1] + [n2];
    NodeIsDrawn(c, AGENTS[0]);
    NodesSnoc(agents, n0);
    NodeIsDrawn(c, AGENTS[1]);
    NodesSnoc(agents + [n0], n1);
    NodeIsDrawn(c, AGENTS[2]);
    NodesSnoc(agents + [n0] + [n1], n2);
  }

  lemma {:induction false} NodesAreDrawings(calls: seq<Call>)
    ensures Nodes(ToSnapshot(calls)) == Drawings(calls)
  {
    if calls != [] {
      NodesAreDrawings(calls[..|calls| - 1]);
      CallIsDrawn(ToSnapshot(calls[..|calls| - 1]), calls[|calls| - 1]);
    }
  }

  lemma {:induction false} DrawingsAt(calls: seq<Call>, i: nat)
    requires i < |calls|
    ensures var d := Drawings(calls);
      d[3 * i] == Drawing(calls[i], AGENTS[0]) && d[3 * i + 1] == Drawing(calls[i], AGENTS[1]) &&
      d[3 * i + 2] == Drawing(calls[i], AGENTS[2])
  {
    if i < |calls| - 1 {
      DrawingsAt(calls[..|calls| - 1], i);
    }
  }

  ghost predicate DistinctRooms(calls: seq<Call>) {
    forall i, j :: 0 <= i < j < |calls| ==> calls[i].room != calls[j].room
  }

  function CallRooms(calls: seq<Call>): set<string> {
    set i | 0 <= i < |calls| :: calls[i].room
  }

  lemma {:induction false} DistinctRoomsCount(calls: seq<Call>)
    requires DistinctRooms(calls)
    ensures |CallRooms(calls)| == |calls|
  {
    if calls != [] {
      var front, c := calls[..|calls| - 1], calls[|calls| - 1];
      DistinctRoomsCount(front);
      assert CallRooms(calls) == CallRooms(front) + {c.room};
    }
  }

  lemma {:induction false} RoomsOfDrawings(calls: seq<Call>)
    ensures Rooms(Drawings(calls)) == CallRooms(calls)
  {
    if calls != [] {
      var front, c := calls[..|calls| - 1], calls[|calls| - 1];
      RoomsOfDrawings(front);
      assert CallRooms(calls) == CallRooms(front) + {c.room};
      RoomsSnoc(Drawings(front), Drawing(c, AGENTS[0]));
      RoomsSnoc(Drawings(front) + [Drawing(c, AGENTS[0])], Drawing(c, AGENTS[1]));
      RoomsSnoc(Drawings(front) + [Drawing(c, AGENTS[0])] + [Drawing(c, AGENTS[1])], Drawing(c, AGENTS[2]));
    }
  }

  lemma RoomsSnoc(nodes: seq<GraphNode>, n: GraphNode)
    ensures Rooms(nodes + [n]) == Rooms(nodes) + {n.room}
    ensures Ids(nodes + [n]) == Ids(nodes) + {n.id}
  {
    forall r
      ensures r in Rooms(nodes + [n]) <==> r in Rooms(nodes) + {n.room}
      ensures r in Ids(nodes + [n]) <==> r in Ids(nodes) + {n.id}
    {
      assert n in nodes + [n];
      assert forall m :: m in nodes ==> m in nodes + [n];
    }
  }

  // ---------------------------------------------------------------- edges

  /** The edges one agent's links ask for. */
  function LinkEdges(id: string, links: seq<string>, known: set<string>): seq<GraphEdge> {
    if links == [] then []
    else
      var front, other := LinkEdges(id, links[..|links| - 1], known), links[|links| - 1];
      if id in known && other in known then front + [Ordered(id, other)] else front
  }

  function AllEdges(agents: seq<AgentNode>, known: set<string>): seq<GraphEdge> {
    if agents == [] then []
    else
      var last := agents[|agents| - 1];
      AllEdges(agents[..|agents| - 1], known) + LinkEdges(last.id, last.collaborators, known)
  }

  function DrawEach(d: Drawn, es: seq<GraphEdge>): Drawn {
    if es == [] then d else Draw(DrawEach(d, es[..|es| - 1]), es[|es| - 1])
  }

  lemma {:induction false} DrawEachConcat(d: Drawn, a: seq<GraphEdge>, b: seq<GraphEdge>)
    ensures DrawEach(d, a + b) == DrawEach(DrawEach(d, a), b)
  {
    if b == [] {
      assert a + b == a;
    } else {
      DrawEachConcat(d, a, b[..|b| - 1]);
      assert (a + b)[..|a + b| - 1] == a + b[..|b| - 1];
    }
  }

  lemma {:induction false} LinksDrawEach(d: Drawn, id: string, links: seq<string>, known: set<string>)
    ensures DrawLinks(d, id, links, known) == DrawEach(d, LinkEdges(id, links, known))
  {
    if links != [] {
      var front := links[..|links| - 1];
      LinksDrawEach(d, id, front, known);
      var es := LinkEdges(id, front, known);
      assert (es + [Ordered(id, links[|links| - 1])])[..|es|] == es;
    }
  }

  lemma {:induction false} AllDrawEach(agents: seq<AgentNode>, known: set<string>)
    ensures DrawAll(agents, known) == DrawEach(Drawn({}, []), AllEdges(agents, known))
  {
    if agents != [] {
      var front, last := agents[..|agents| - 1], agents[|agents| - 1];
      AllDrawEach(front, known);
      LinksDrawEach(DrawAll(front, known), last.id, last.collaborators, known);
      DrawEachConcat(Drawn({}, []), AllEdges(front, known), LinkEdges(last.id, last.collaborators, known));
    }
  }

  /** The drawn edges have distinct keys, all seen, and come from the edges asked for. */
  lemma {:induction false} DrawnKeys(es: seq<GraphEdge>)
    ensures var d := DrawEach(Drawn({}, []), es);
      (forall i, j :: 0 <= i < j < |d.edges| ==> EdgeKey(d.edges[i]) != EdgeKey(d.edges[j])) &&
      (forall i :: 0 <= i < |d.edges| ==> EdgeKey(d.edges[i]) in d.seen && d.edges[i] in es) &&
      (forall i :: 0 <= i < |es| ==> EdgeKey(es[i]) in d.seen)
  {
    if es != [] {
      DrawnKeys(es[..|es| - 1]);
    }
  }

  lemma {:induction false} SeenIsDrawn(es: seq<GraphEdge>, key: string)
    requires key in DrawEach(Drawn({}, []), es).seen
    ensures var edges := DrawEach(Drawn({}, []), es).edges;
      exists i :: 0 <= i < |edges| && EdgeKey(edges[i]) == key
  {
    var front, last := es[..|es| - 1], es[|es| - 1];
    var before, d := DrawEach(Drawn({}, []), front), DrawEach(Drawn({}, []), es);
    if key in before.seen {
      SeenIsDrawn(front, key);
      var i :| 0 <= i < |before.edges| && EdgeKey(before.edges[i]) == key;
      assert d.edges[i] == before.edges[i];
    } else {
      assert d.edges[|before.edges|] == last;
    }
  }

  // ---------------------------------------------------------------- edges are handoffs

  /** Edge `e` is the handoff between specialists `j` and `k` of call `i`, in their fixed order. */
  predicate IsHandoffEdge(calls: seq<Call>, e: GraphEdge, i: nat, j: nat, k: nat) {
    && i < |calls| && j < k < 3
    && ((AGENTS[j], AGENTS[k]) in calls[i].edges || (AGENTS[k], AGENTS[j]) in calls[i].edges)
    && e == GraphEdge(calls[i].room + ":" + AGENTS[j], calls[i].room + ":" + AGENTS[k])
  }

  ghost predicate SomeHandoff(calls: seq<Call>, e: GraphEdge) {
    exists i: nat, j: nat, k: nat :: IsHandoffEdge(calls, e, i, j, k)
  }

  lemma {:induction false} InLinkEdges(id: string, links: seq<string>, known: set<string>, e: GraphEdge)
    ensures e in LinkEdges(id, links, known) <==>
            exists m :: 0 <= m < |links| && id in known && links[m] in known && e == Ordered(id, links[m])
  {
    if links != [] {
      InLinkEdges(id, links[..|links| - 1], known, e);
    }
  }

  lemma {:induction false} InAllEdges(agents: seq<AgentNode>, known: set<string>, e: GraphEdge)
    ensures e in AllEdges(agents, known) <==>
            exists a :: 0 <= a < |agents| && e in LinkEdges(agents[a].id, agents[a].collaborators, known)
  {
    if agents != [] {
      InAllEdges(agents[..|agents| - 1], known, e);
    }
  }

  /** Every snapshot entry is some call's specialist. */
  lemma {:induction false} SnapshotEntryOf(calls: seq<Call>, a: nat) returns (i: nat, j: nat)
    requires a < |ToSnapshot(calls)|
    ensures i < |calls| && j < 3 && ToSnapshot(calls)[a] == Node(calls[i], AGENTS[j])
  {
    var front := ToSnapshot(calls[..|calls| - 1]);
    if a < |front| {
      i, j := SnapshotEntryOf(calls[..|calls| - 1], a);
    } else {
      i, j := |calls| - 1, a - |front|;
    }
  }

  /** Every call's specialist has a snapshot entry. */
  lemma {:induction false} SnapshotHas(calls: seq<Call>, i: nat, j: nat) returns (a: nat)
    requires i < |calls| && j < 3
    ensures a < |ToSnapshot(calls)| && ToSnapshot(calls)[a] == Node(calls[i], AGENTS[j])
  {
    var front := ToSnapshot(calls[..|calls| - 1]);
    if i < |calls| - 1 {
      a := SnapshotHas(calls[..|calls| - 1], i, j);
    } else {
      a := |front| + j;
    }
  }

  /** An edge a specialist's node asks for is one of its call's handoffs. */
  lemma AskedByNode(calls: seq<Call>, i: nat, j: nat, known: set<string>, e: GraphEdge)
    requires i < |calls| && j < 3 && WellFormed(calls[i])
    requires e in LinkEdges(NodeId(calls[i].room, AGENTS[j]), Collaborators(calls[i], AGENTS[j]), known)
    ensures SomeHandoff(calls, e)
  {
    var links, id := Collaborators(calls[i], AGENTS[j]), NodeId(calls[i].room, AGENTS[j]);
    InLinkEdges(id, links, known, e);
    var m :| 0 <= m < |links| && id in known && links[m] in known && e == Ordered(id, links[m]);
    var k := CollaboratorAt(calls[i], j, m);
    PairIsHandoff(calls, i, j, k);
  }

  lemma PairIsHandoff(calls: seq<Call>, i: nat, j: nat, k: nat)
    requires i < |calls| && j < 3 && k < 3 && j != k && Handoff(calls[i], AGENTS[j], AGENTS[k])
    ensures SomeHandoff(calls, Ordered(NodeId(calls[i].room, AGENTS[j]), NodeId(calls[i].room, AGENTS[k])))
  {
    AgentsAreOrdered();
    IdsCompare(calls[i].room, AGENTS[j], AGENTS[k]);
    var e := Ordered(NodeId(calls[i].room, AGENTS[j]), NodeId(calls[i].room, AGENTS[k]));
    assert IsHandoffEdge(calls, e, i, if j < k then j else k, if j < k then k else j);
  }

  /** A specialist's node asks for the handoffs it comes first in. */
  lemma NodeAsksFor(calls: seq<Call>, i: nat, j: nat, k: nat, known: set<string>, e: GraphEdge)
    requires i < |calls| && WellFormed(calls[i]) && IsHandoffEdge(calls, e, i, j, k)
    requires NodeId(calls[i].room, AGENTS[j]) in known && NodeId(calls[i].room, AGENTS[k]) in known
    ensures e in LinkEdges(NodeId(calls[i].room, AGENTS[j]), Collaborators(calls[i], AGENTS[j]), known)
  {
    var links, id := Collaborators(calls[i], AGENTS[j]), NodeId(calls[i].room, AGENTS[j]);
    InLinkEdges(id, links, known, e);
    AgentsAreOrdered();
    var m := CollaboratorListed(calls[i], j, k);
    IdsCompare(calls[i].room, AGENTS[j], AGENTS[k]);
  }

  lemma CollaboratorAt(c: Call, j: nat, m: nat) returns (k: nat)
    requires WellFormed(c) && j < 3 && m < |Collaborators(c, AGENTS[j])|
    ensures k < 3 && k != j && Handoff(c, AGENTS[j], AGENTS[k])
    ensures Collaborators(c, AGENTS[j])[m] == NodeId(c.room, AGENTS[k])
  {
    assert !Handoff(c, AGENTS[j], AGENTS[j]);
    if Handoff(c, AGENTS[j], AGENTS[0]) && m == 0 {
      k := 0;
    } else if Handoff(c, AGENTS[j], AGENTS[2]) && m == |Collaborators(c, AGENTS[j])| - 1 {
      k := 2;
    } else {
      k := 1;
    }
  }

  lemma CollaboratorListed(c: Call, j: nat, k: nat) returns (m: nat)
    requires j < 3 && k < 3 && Handoff(c, AGENTS[j], AGENTS[k])
    ensures m < |Collaborators(c, AGENTS[j])| && Collaborators(c, AGENTS[j])[m] == NodeId(c.room, AGENTS[k])
  {
    if k == 0 {
      m := 0;
    } else if k == 1 {
      m := if Handoff(c, AGENTS[j], AGENTS[0]) then 1 else 0;
    } else {
      m := |Collaborators(c, AGENTS[j])| - 1;
    }
  }

  lemma IdsOfCall(calls: seq<Call>)
    requires calls != []
    ensures var c := calls[|calls| - 1];
      Ids(Drawings(calls)) ==
      Ids(Drawings(calls[..|calls| - 1]))
        + {NodeId(c.room, AGENTS[0])} + {NodeId(c.room, AGENTS[1])} + {NodeId(c.room, AGENTS[2])}
  {
    var front, c := Drawings(calls[..|calls| - 1]), calls[|calls| - 1];
    RoomsSnoc(front, Drawing(c, AGENTS[0]));
    RoomsSnoc(front + [Drawing(c, AGENTS[0])], Drawing(c, AGENTS[1]));
    RoomsSnoc(front + [Drawing(c, AGENTS[0])] + [Drawing(c, AGENTS[1])], Drawing(c, AGENTS[2]));
  }

  lemma {:induction false} DrawnIdsKnown(calls: seq<Call>, i: nat, k: nat)
    requires i < |calls| && k < 3
    ensures NodeId(calls[i].room, AGENTS[k]) in Ids(Drawings(calls))
  {
    IdsOfCall(calls);
    if i < |calls| - 1 {
      DrawnIdsKnown(calls[..|calls| - 1], i, k);
    }
  }

  lemma AskedThenHandoff(calls: seq<Call>, known: set<string>, e: GraphEdge)
    requires forall i :: 0 <= i < |calls| ==> WellFormed(calls[i])
    requires e in AllEdges(ToSnapshot(calls), known)
    ensures SomeHandoff(calls, e)
  {
    var agents := ToSnapshot(calls);
    InAllEdges(agents, known, e);
    var a :| 0 <= a < |agents| && e in LinkEdges(agents[a].id, agents[a].collaborators, known);
    var i, j := SnapshotEntryOf(calls, a);
    AskedByNode(calls, i, j, known, e);
  }

  lemma HandoffThenAsked(calls: seq<Call>, e: GraphEdge, i: nat, j: nat, k: nat)
    requires IsHandoffEdge(calls, e, i, j, k) && WellFormed(calls[i])
    ensures e in AllEdges(ToSnapshot(calls), Ids(Drawings(calls)))
  {
    var agents, known := ToSnapshot(calls), Ids(Drawings(calls));
    var a := SnapshotHas(calls, i, j);
    DrawnIdsKnown(calls, i, j);
    DrawnIdsKnown(calls, i, k);
    NodeAsksFor(calls, i, j, k, known, e);
    assert e in LinkEdges(agents[a].id, agents[a].collaborators, known);
    InAllEdges(agents, known, e);
  }

  /** The edges the snapshot's nodes ask for are exactly the handoffs of the calls. */
  lemma AskedIsHandoff(calls: seq<Call>, e: GraphEdge)
    requires forall i :: 0 <= i < |calls| ==> WellFormed(calls[i])
    ensures e in AllEdges(ToSnapshot(calls), Ids(Drawings(calls))) <==> SomeHandoff(calls, e)
  {
    if e in AllEdges(ToSnapshot(calls), Ids(Drawings(calls))) {
      AskedThenHandoff(calls, Ids(Drawings(calls)), e);
    }
    if i: nat, j: nat, k: nat :| IsHandoffEdge(calls, e, i, j, k) {
      HandoffThenAsked(calls, e, i, j, k);
    }
  }

  lemma HandoffKeysInjective(calls: seq<Call>, e: GraphEdge, f: GraphEdge)
    requires SomeHandoff(calls, e) && SomeHandoff(calls, f) && EdgeKey(e) == EdgeKey(f)
    ensures e == f
  {
    var i: nat, j: nat, k: nat :| IsHandoffEdge(calls, e, i, j, k);
    var i': nat, j': nat, k': nat :| IsHandoffEdge(calls, f, i', j', k');
    assert AGENTS[j] == AGENTS[..2][j] && AGENTS[j'] == AGENTS[..2][j'];
    EdgeKeyInjective(calls[i].room, AGENTS[j], AGENTS[k], calls[i'].room, AGENTS[j'], AGENTS[k']);
  }

  lemma HandoffsAreNoLoops(calls: seq<Call>, e: GraphEdge)
    requires SomeHandoff(calls, e)
    ensures e.a != e.b
  {
    var i: nat, j: nat, k: nat :| IsHandoffEdge(calls, e, i, j, k);
    AgentsAreOrdered();
    IdsCompare(calls[i].room, AGENTS[j], AGENTS[k]);
    LessIrreflexive(e.a);
  }

  lemma {:induction false} LessIrreflexive(s: string)
    ensures !Less(s, s)
  {
    if s != "" {
      LessIrreflexive(s[1..]);
    }
  }

  /** The edges drawn for a list of calls. */
  function DrawnEdges(calls: seq<Call>): seq<GraphEdge> {
    DrawAll(ToSnapshot(calls), Ids(Drawings(calls))).edges
  }

  lemma DrawnIffHandoff(calls: seq<Call>, e: GraphEdge)
    requires forall i :: 0 <= i < |calls| ==> WellFormed(calls[i])
    ensures e in DrawnEdges(calls) <==> SomeHandoff(calls, e)
  {
    var es := AllEdges(ToSnapshot(calls), Ids(Drawings(calls)));
    AllDrawEach(ToSnapshot(calls), Ids(Drawings(calls)));
    DrawnKeys(es);
    AskedIsHandoff(calls, e);
    var edges := DrawEach(Drawn({}, []), es).edges;
    if SomeHandoff(calls, e) {
      SeenIsDrawn(es, EdgeKey(e));
      var i :| 0 <= i < |edges| && EdgeKey(edges[i]) == EdgeKey(e);
      AskedIsHandoff(calls, edges[i]);
      HandoffKeysInjective(calls, edges[i], e);
    }
  }

  lemma DrawnOnce(calls: seq<Call>)
    ensures forall i, j :: 0 <= i < j < |DrawnEdges(calls)| ==> DrawnEdges(calls)[i] != DrawnEdges(calls)[j]
  {
    AllDrawEach(ToSnapshot(calls), Ids(Drawings(calls)));
    DrawnKeys(AllEdges(ToSnapshot(calls), Ids(Drawings(calls))));
  }

  /** Snapshot, then reducer: three nodes per call, as many live calls as calls. */
  lemma DerivedGraph(calls: seq<Call>)
    requires DistinctRooms(calls)
    ensures Derive(ToSnapshot(calls)) == Graph(Drawings(calls), DrawnEdges(calls), |calls|, calls == [])
  {
    NodesAreDrawings(calls);
    RoomsOfDrawings(calls);
    DistinctRoomsCount(calls);
  }

  /** For any calls with distinct rooms, whatever their names, the drawn graph has exactly three nodes
      per call, as many live calls as calls, and each undirected handoff exactly once as an edge
      between two different nodes. */
  lemma GraphPreservesHandoffs(calls: seq<Call>, g: Graph)
    requires DistinctRooms(calls) && forall i :: 0 <= i < |calls| ==> WellFormed(calls[i])
    requires g == Derive(ToSnapshot(calls))
    ensures g.nodes == Drawings(calls) && g.liveCalls == |calls| && (g.empty <==> calls == [])
    ensures forall e :: e in g.edges <==> SomeHandoff(calls, e)
    ensures forall e :: e in g.edges ==> e.a != e.b
    ensures forall i, j :: 0 <= i < j < |g.edges| ==> g.edges[i] != g.edges[j]
  {
    DerivedGraph(calls);
    DrawnOnce(calls);
    forall e
      ensures e in g.edges <==> SomeHandoff(calls, e)
      ensures SomeHandoff(calls, e) ==> e.a != e.b
    {
      DrawnIffHandoff(calls, e);
      if SomeHandoff(calls, e) {
        HandoffsAreNoLoops(calls, e);
      }
    }
  }

  function Count(active: bool): nat {
    if active then 1 else 0
  }

  /** The node shows specialist `name` of the call under its caption, with the call's action exactly when that is the
      specialist speaking. */
  predicate ShowsSpecialist(n: GraphNode, c: Call, name: string, caption: string) {
    && n.id == c.room + ":" + name && n.specialist == name && n.room == c.room && n.caption == caption
    && (n.active <==> c.active == name) && n.action == if c.active == name then c.action else ""
  }

  lemma DrawingsShow(c: Call)
    ensures ShowsSpecialist(Drawing(c, AGENTS[0]), c, "concierge", "Concierge")
    ensures ShowsSpecialist(Drawing(c, AGENTS[1]), c, "property", "Property")
    ensures ShowsSpecialist(Drawing(c, AGENTS[2]), c, "scheduling", "Scheduling")
  {
    AgentsAreOrdered();
    assert |"concierge"| == 9 && |"property"| == 8 && |"scheduling"| == 10;
  }

  /** A call's three nodes show its three specialists, in their order. */
  lemma DrawnNodesShow(calls: seq<Call>, i: nat)
    requires i < |calls|
    ensures ShowsSpecialist(Drawings(calls)[3 * i], calls[i], "concierge", "Concierge")
    ensures ShowsSpecialist(Drawings(calls)[3 * i + 1], calls[i], "property", "Property")
    ensures ShowsSpecialist(Drawings(calls)[3 * i + 2], calls[i], "scheduling", "Scheduling")
  {
    DrawingsAt(calls, i);
    DrawingsShow(calls[i]);
  }

  /** Each call's three nodes are its three specialists under its room, and exactly one is active. */
  lemma OneActivePerCall(calls: seq<Call>, i: nat)
    requires i < |calls| && WellFormed(calls[i])
    ensures var d := Drawings(calls);
      d[3 * i].room == d[3 * i + 1].room == d[3 * i + 2].room == calls[i].room &&
      [d[3 * i].specialist, d[3 * i + 1].specialist, d[3 * i + 2].specialist] == AGENTS &&
      Count(d[3 * i].active) + Count(d[3 * i + 1].active) + Count(d[3 * i + 2].active) == 1
  {
    AgentsAreOrdered();
    DrawingsAt(calls, i);
  }
}
