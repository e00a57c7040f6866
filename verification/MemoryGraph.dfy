/**
 The tenant's memory graph: three tables of rows projected to nodes and edges, the nodes cut to a cap, and the
 browser's filter on what is left. Row ids are primary keys, so no two rows of a table share one.
 */
module MemoryGraph {
  import opened Prelude
  import opened Text

  /** Node ids before printing; `Print` gives the strings the service and the browser compare. */
  datatype NodeId = ListingId(row: string) | AreaId(area: string) | BuyerId(row: string) | InteractionId(row: string)

  function Print(id: NodeId): string {
    match id
    case ListingId(row) => "listing:" + row
    case AreaId(area) => "area:" + area
    case BuyerId(row) => "buyer:" + row
    case InteractionId(row) => "interaction:" + row
  }

  /** Printed ids are equal only for equal ids, so sets of strings and sets of ids behave alike. */
  lemma PrintInjective(a: NodeId, b: NodeId)
    requires Print(a) == Print(b)
    ensures a == b
  {
    assert Print(a)[0] == Print(b)[0];
    match a
    case ListingId(row) => assert row == Print(a)[8..] == Print(b)[8..];
    case AreaId(area) => assert area == Print(a)[5..] == Print(b)[5..];
    case BuyerId(row) => assert row == Print(a)[6..] == Print(b)[6..];
    case InteractionId(row) => assert row == Print(a)[12..] == Print(b)[12..];
  }

  datatype ListingRow = ListingRow(id: string, address: string, area: Option<string>)

  /** A buyer with the area among their criteria. */
  datatype BuyerRow = BuyerRow(id: string, phoneKey: string, phone: string, name: Option<string>, area: Option<string>)

  datatype InteractionRow = InteractionRow(id: string, phoneKey: Option<string>, kind: string)

  datatype Node = Node(id: NodeId, caption: string)

  datatype Relation = LocatedIn | WantsIn | Had

  datatype Edge = Edge(source: NodeId, target: NodeId, rel: Relation)

  datatype Graph = Graph(nodes: seq<Node>, edges: seq<Edge>, areas: set<NodeId>)

  // ---------------------------------------------------------------- the projection

  /** A row that becomes a node and may name an area. */
  datatype Source = Source(id: NodeId, caption: string, area: Option<string>, rel: Relation)

  function OfListing(l: ListingRow): Source {
    Source(ListingId(l.id), l.address, l.area, LocatedIn)
  }

  function OfBuyer(b: BuyerRow): Source {
    Source(BuyerId(b.id), if Truthy(b.name) then b.name.value else b.phone, b.area, WantsIn)
  }

  function AreaOf(s: Source): NodeId
    requires Truthy(s.area)
  {
    AreaId(Lower(s.area.value))
  }

  function AddSource(g: Graph, s: Source): Graph {
    var nodes := g.nodes + [Node(s.id, s.caption)];
    if !Truthy(s.area) then g.(nodes := nodes)
    else
      var area := AreaOf(s);
      Graph(if area in g.areas then nodes else nodes + [Node(area, s.area.value)],
            g.edges + [Edge(s.id, area, s.rel)], g.areas + {area})
  }

  function AddSources(ss: seq<Source>): Graph {
    if ss == [] then Graph([], [], {}) else AddSource(AddSources(ss[..|ss| - 1]), ss[|ss| - 1])
  }

  function Sources(listings: seq<ListingRow>, buyers: seq<BuyerRow>): seq<Source> {
    seq(|listings|, i requires 0 <= i < |listings| => OfListing(listings[i]))
    + seq(|buyers|, i requires 0 <= i < |buyers| => OfBuyer(buyers[i]))
  }

  /** `buyer_ids`: a later buyer under the same key replaces an earlier one. */
  function BuyerIds(buyers: seq<BuyerRow>): map<string, NodeId> {
    if buyers == [] then map[]
    else BuyerIds(buyers[..|buyers| - 1])[buyers[|buyers| - 1].phoneKey := BuyerId(buyers[|buyers| - 1].id)]
  }

  function AddInteraction(g: Graph, ids: map<string, NodeId>, i: InteractionRow): Graph {
    var node := InteractionId(i.id);
    Graph(g.nodes + [Node(node, i.kind)],
          if i.phoneKey.Some? && i.phoneKey.value in ids
          then g.edges + [Edge(ids[i.phoneKey.value], node, Had)] else g.edges,
          g.areas)
  }

  function AddInteractions(g: Graph, ids: map<string, NodeId>, rows: seq<InteractionRow>): Graph {
    if rows == [] then g
    else AddInteraction(AddInteractions(g, ids, rows[..|rows| - 1]), ids, rows[|rows| - 1])
  }

  /** The whole graph, before the cap. */
  function Project(listings: seq<ListingRow>, buyers: seq<BuyerRow>, rows: seq<InteractionRow>): Graph {
    AddInteractions(AddSources(Sources(listings, buyers)), BuyerIds(buyers), rows)
  }

  function Min(a: nat, b: nat): nat {
    if a < b then a else b
  }

  lemma SourcesGrow(ss: seq<Source>, s: Source)
    ensures AddSources(ss + [s]) == AddSource(AddSources(ss), s)
  {
    assert (ss + [s])[..|ss|] == ss;
  }

  lemma NextListing(listings: seq<ListingRow>, buyers: seq<BuyerRow>, i: nat)
    requires i < |listings|
    ensures var ss := Sources(listings, buyers);
      AddSources(ss[..i + 1]) == AddSource(AddSources(ss[..i]), OfListing(listings[i]))
  {
    var ss := Sources(listings, buyers);
    assert ss[..i] + [ss[i]] == ss[..i + 1];
    SourcesGrow(ss[..i], ss[i]);
  }

  lemma NextBuyer(listings: seq<ListingRow>, buyers: seq<BuyerRow>, i: nat)
    requires i < |buyers|
    ensures var ss, n := Sources(listings, buyers), |listings| + i;
      AddSources(ss[..n + 1]) == AddSource(AddSources(ss[..n]), OfBuyer(buyers[i]))
  {
    var ss, n := Sources(listings, buyers), |listings| + i;
    assert ss[..n] + [ss[n]] == ss[..n + 1];
    SourcesGrow(ss[..n], ss[n]);
  }

  lemma NextBuyerId(buyers: seq<BuyerRow>, i: nat)
    requires i < |buyers|
    ensures BuyerIds(buyers[..i + 1]) == BuyerIds(buyers[..i])[buyers[i].phoneKey := BuyerId(buyers[i].id)]
  {
    assert buyers[..i + 1][..i] == buyers[..i];
  }

  lemma AllSources(listings: seq<ListingRow>, buyers: seq<BuyerRow>)
    ensures Sources(listings, buyers)[..|listings| + |buyers|] == Sources(listings, buyers)
    ensures buyers[..|buyers|] == buyers
  {
  }

  lemma NextInteraction(g: Graph, ids: map<string, NodeId>, rows: seq<InteractionRow>, i: nat)
    requires i < |rows|
    ensures AddInteractions(g, ids, rows[..i + 1]) == AddInteraction(AddInteractions(g, ids, rows[..i]), ids, rows[i])
  {
    assert rows[..i + 1][..i] == rows[..i];
  }

  /** The block both row loops repeat: the row's node, its area's node when new, and the edge between them. */
  method Append(nodes: seq<Node>, edges: seq<Edge>, areas: set<NodeId>, s: Source)
    returns (nodes': seq<Node>, edges': seq<Edge>, areas': set<NodeId>)
    ensures Graph(nodes', edges', areas') == AddSource(Graph(nodes, edges, areas), s)
  {
    nodes', edges', areas' := nodes + [Node(s.id, s.caption)], edges, areas;
    if Truthy(s.area) {
      var area := AreaOf(s);
      if area !in areas {
        nodes' := nodes' + [Node(area, s.area.value)];
        areas' := areas' + {area};
      }
      edges' := edges' + [Edge(s.id, area, s.rel)];
    }
  }

  /** The loop over the listings. */
  method AppendListings(listings: seq<ListingRow>, ghost buyers: seq<BuyerRow>)
    returns (nodes: seq<Node>, edges: seq<Edge>, areas: set<NodeId>)
    ensures Graph(nodes, edges, areas) == AddSources(Sources(listings, buyers)[..|listings|])
  {
    nodes, edges, areas := [], [], {};
    for i := 0 to |listings|
      invariant Graph(nodes, edges, areas) == AddSources(Sources(listings, buyers)[..i])
    {
      NextListing(listings, buyers, i);
      nodes, edges, areas := Append(nodes, edges, areas, OfListing(listings[i]));
    }
  }

  /** The loop over the buyers, which also fills `buyer_ids`. */
  method AppendBuyers(ghost listings: seq<ListingRow>, buyers: seq<BuyerRow>,
                      nodes0: seq<Node>, edges0: seq<Edge>, areas0: set<NodeId>)
    returns (nodes: seq<Node>, edges: seq<Edge>, areas: set<NodeId>, buyerIds: map<string, NodeId>)
    requires Graph(nodes0, edges0, areas0) == AddSources(Sources(listings, buyers)[..|listings|])
    ensures Graph(nodes, edges, areas) == AddSources(Sources(listings, buyers)) && buyerIds == BuyerIds(buyers)
  {
    nodes, edges, areas, buyerIds := nodes0, edges0, areas0, map[];
    for i := 0 to |buyers|
      invariant Graph(nodes, edges, areas) == AddSources(Sources(listings, buyers)[..|listings| + i])
      invariant buyerIds == BuyerIds(buyers[..i])
    {
      NextBuyer(listings, buyers, i);
      NextBuyerId(buyers, i);
      buyerIds := buyerIds[buyers[i].phoneKey := BuyerId(buyers[i].id)];
      nodes, edges, areas := Append(nodes, edges, areas, OfBuyer(buyers[i]));
    }
    AllSources(listings, buyers);
  }

  /** `get_subgraph`: the loops over the three tables, and the cut. */
  method GetSubgraph(listings: seq<ListingRow>, buyers: seq<BuyerRow>, rows: seq<InteractionRow>, cap: nat)
    returns (nodes: seq<Node>, edges: seq<Edge>)
    ensures var g := Project(listings, buyers, rows); nodes == g.nodes[..Min(cap, |g.nodes|)] && edges == g.edges
  {
    var areas, buyerIds;
    nodes, edges, areas := AppendListings(listings, buyers);
    nodes, edges, areas, buyerIds := AppendBuyers(listings, buyers, nodes, edges, areas);
    ghost var g := AddSources(Sources(listings, buyers));
    for i := 0 to |rows|
      invariant Graph(nodes, edges, areas) == AddInteractions(g, buyerIds, rows[..i])
    {
      NextInteraction(g, buyerIds, rows, i);
      var id := InteractionId(rows[i].id);
      nodes := nodes + [Node(id, rows[i].kind)];
      if rows[i].phoneKey.Some? && rows[i].phoneKey.value in buyerIds {
        edges := edges + [Edge(buyerIds[rows[i].phoneKey.value], id, Had)];
      }
    }
    assert rows[..|rows|] == rows;
    nodes := nodes[..Min(cap, |nodes|)];
  }

  // ---------------------------------------------------------------- what the projection holds

  ghost predicate HasNode(nodes: seq<Node>, id: NodeId) {
    exists k :: 0 <= k < |nodes| && nodes[k].id == id
  }

  ghost predicate DistinctNodes(nodes: seq<Node>) {
    forall j, k :: 0 <= j < k < |nodes| ==> nodes[j].id != nodes[k].id
  }

  ghost predicate DistinctSources(ss: seq<Source>) {
    forall j, k :: 0 <= j < k < |ss| ==> ss[j].id != ss[k].id
  }

  ghost predicate NoAreaSource(ss: seq<Source>) {
    forall k :: 0 <= k < |ss| ==> ss[k].id.ListingId? || ss[k].id.BuyerId?
  }

  ghost predicate Names(ss: seq<Source>, area: NodeId) {
    exists k :: 0 <= k < |ss| && Truthy(ss[k].area) && AreaOf(ss[k]) == area
  }

  ghost predicate IsSource(ss: seq<Source>, id: NodeId) {
    exists k :: 0 <= k < |ss| && ss[k].id == id
  }

  lemma NamesSnoc(ss: seq<Source>, s: Source, id: NodeId)
    ensures Names(ss + [s], id) <==> Names(ss, id) || (Truthy(s.area) && AreaOf(s) == id)
    ensures IsSource(ss + [s], id) <==> IsSource(ss, id) || s.id == id
  {
    var all := ss + [s];
    assert all[|ss|] == s && forall k :: 0 <= k < |ss| ==> all[k] == ss[k];
  }

  lemma HasNodeSnoc(nodes: seq<Node>, n: Node, id: NodeId)
    ensures HasNode(nodes + [n], id) <==> HasNode(nodes, id) || n.id == id
    ensures DistinctNodes(nodes) && !HasNode(nodes, n.id) ==> DistinctNodes(nodes + [n])
  {
    var all := nodes + [n];
    assert all[|nodes|] == n && forall k :: 0 <= k < |nodes| ==> all[k] == nodes[k];
  }

  /** One node per source and one per area named, ids distinct; `areas` remembers the areas named. */
  ghost predicate NodesAre(g: Graph, ss: seq<Source>) {
    && DistinctNodes(g.nodes)
    && (forall id :: HasNode(g.nodes, id) <==> IsSource(ss, id) || Names(ss, id))
    && (forall id :: id in g.areas <==> Names(ss, id))
  }

  lemma SourceStep(ss: seq<Source>, s: Source)
    requires DistinctSources(ss + [s]) && NoAreaSource(ss + [s])
    requires NodesAre(AddSources(ss), ss)
    ensures NodesAre(AddSources(ss + [s]), ss + [s])
  {
    SourcesGrow(ss, s);
    var g, all := AddSources(ss), ss + [s];
    var nodes := g.nodes + [Node(s.id, s.caption)];
    assert all[|ss|] == s && forall k :: 0 <= k < |ss| ==> all[k] == ss[k];
    assert !IsSource(ss, s.id);
    assert !Names(ss, s.id);
    forall id ensures HasNode(nodes, id) <==> HasNode(g.nodes, id) || id == s.id {
      HasNodeSnoc(g.nodes, Node(s.id, s.caption), id);
    }
    HasNodeSnoc(g.nodes, Node(s.id, s.caption), s.id);
    forall id ensures Names(all, id) <==> Names(ss, id) || (Truthy(s.area) && AreaOf(s) == id) {
      NamesSnoc(ss, s, id);
    }
    forall id ensures IsSource(all, id) <==> IsSource(ss, id) || s.id == id {
      NamesSnoc(ss, s, id);
    }
    if Truthy(s.area) && AreaOf(s) !in g.areas {
      var area := Node(AreaOf(s), s.area.value);
      assert !IsSource(ss, area.id);
      HasNodeSnoc(nodes, area, area.id);
      forall id ensures HasNode(nodes + [area], id) <==> HasNode(nodes, id) || id == area.id {
        HasNodeSnoc(nodes, area, id);
      }
    }
  }

  lemma {:induction false} SourceNodes(ss: seq<Source>)
    requires DistinctSources(ss) && NoAreaSource(ss)
    ensures NodesAre(AddSources(ss), ss)
  {
    if ss != [] {
      var front, s := ss[..|ss| - 1], ss[|ss| - 1];
      assert ss == front + [s];
      SourceNodes(front);
      SourceStep(front, s);
    }
  }

  /** The edges of the sources, in order: every source that names an area, to that area. */
  function AreaEdges(ss: seq<Source>): seq<Edge> {
    if ss == [] then []
    else
      var s := ss[|ss| - 1];
      AreaEdges(ss[..|ss| - 1]) + (if Truthy(s.area) then [Edge(s.id, AreaOf(s), s.rel)] else [])
  }

  lemma {:induction false} SourceEdges(ss: seq<Source>)
    ensures AddSources(ss).edges == AreaEdges(ss)
  {
    if ss != [] {
      SourceEdges(ss[..|ss| - 1]);
    }
  }

  /** The edge's source stands in the list, and its area no later than just behind it. */
  ghost predicate Tight(nodes: seq<Node>, e: Edge) {
    exists j, k :: 0 <= k <= j + 1 && 0 <= j < |nodes| && k < |nodes| &&
      nodes[j].id == e.source && nodes[k].id == e.target
  }

  lemma {:induction false} SourcesTight(ss: seq<Source>)
    requires DistinctSources(ss) && NoAreaSource(ss)
    ensures forall i :: 0 <= i < |AddSources(ss).edges| ==> Tight(AddSources(ss).nodes, AddSources(ss).edges[i])
  {
    if ss != [] {
      var front, s := ss[..|ss| - 1], ss[|ss| - 1];
      assert ss == front + [s];
      SourcesTight(front);
      SourceNodes(front);
      var g, h := AddSources(front), AddSources(ss);
      forall i | 0 <= i < |h.edges| ensures Tight(h.nodes, h.edges[i]) {
        if i < |g.edges| {
          TightGrows(g.nodes, h.nodes, g.edges[i]);
        } else {
          LastTight(g, s);
        }
      }
    }
  }

  lemma TightGrows(nodes: seq<Node>, more: seq<Node>, e: Edge)
    requires nodes <= more && Tight(nodes, e)
    ensures Tight(more, e)
  {
    var j, k :| 0 <= k <= j + 1 && 0 <= j < |nodes| && k < |nodes| &&
      nodes[j].id == e.source && nodes[k].id == e.target;
    assert more[j] == nodes[j] && more[k] == nodes[k];
  }

  lemma LastTight(g: Graph, s: Source)
    requires Truthy(s.area) && (AreaOf(s) in g.areas ==> HasNode(g.nodes, AreaOf(s)))
    ensures Tight(AddSource(g, s).nodes, Edge(s.id, AreaOf(s), s.rel))
  {
    var nodes, n := AddSource(g, s).nodes, |g.nodes|;
    assert nodes[n].id == s.id;
    if AreaOf(s) in g.areas {
      var k :| 0 <= k < n && g.nodes[k].id == AreaOf(s);
      assert nodes[k] == g.nodes[k];
    } else {
      assert nodes[n + 1].id == AreaOf(s);
    }
  }

  // ---------------------------------------------------------------- the rows the tables hold

  /** Primary keys within each table, and the buyers' unique phone key. */
  ghost predicate Keyed(listings: seq<ListingRow>, buyers: seq<BuyerRow>, rows: seq<InteractionRow>) {
    && (forall j, k :: 0 <= j < k < |listings| ==> listings[j].id != listings[k].id)
    && (forall j, k :: 0 <= j < k < |buyers| ==>
          buyers[j].id != buyers[k].id && buyers[j].phoneKey != buyers[k].phoneKey)
    && (forall j, k :: 0 <= j < k < |rows| ==> rows[j].id != rows[k].id)
  }

  lemma KeyedSources(listings: seq<ListingRow>, buyers: seq<BuyerRow>)
    requires Keyed(listings, buyers, [])
    ensures DistinctSources(Sources(listings, buyers)) && NoAreaSource(Sources(listings, buyers))
  {
  }

  lemma {:induction false} BuyerIdsIs(buyers: seq<BuyerRow>, key: string)
    ensures key in BuyerIds(buyers) <==> exists k :: 0 <= k < |buyers| && buyers[k].phoneKey == key
    ensures key in BuyerIds(buyers) ==>
      exists k :: 0 <= k < |buyers| && buyers[k].phoneKey == key && BuyerIds(buyers)[key] == BuyerId(buyers[k].id)
  {
    if buyers != [] {
      var n := |buyers| - 1;
      BuyerIdsIs(buyers[..n], key);
      if key in BuyerIds(buyers[..n]) {
        var k :| 0 <= k < n && buyers[..n][k].phoneKey == key &&
          BuyerIds(buyers[..n])[key] == BuyerId(buyers[..n][k].id);
        assert buyers[k] == buyers[..n][k];
      }
    }
  }

  lemma {:induction false} InteractionNodes(g: Graph, ids: map<string, NodeId>, rows: seq<InteractionRow>)
    ensures var r := AddInteractions(g, ids, rows);
      && |r.nodes| == |g.nodes| + |rows| && g.nodes <= r.nodes && g.edges <= r.edges
      && forall k :: 0 <= k < |rows| ==> r.nodes[|g.nodes| + k].id == InteractionId(rows[k].id)
  {
    if rows != [] {
      InteractionNodes(g, ids, rows[..|rows| - 1]);
    }
  }

  /** The edge an interaction gets, if its buyer is known. */
  ghost predicate IsHad(ids: map<string, NodeId>, rows: seq<InteractionRow>, e: Edge, k: int) {
    && 0 <= k < |rows| && rows[k].phoneKey.Some? && rows[k].phoneKey.value in ids
    && e == Edge(ids[rows[k].phoneKey.value], InteractionId(rows[k].id), Had)
  }

  ghost predicate SomeHad(ids: map<string, NodeId>, rows: seq<InteractionRow>, e: Edge) {
    exists k :: IsHad(ids, rows, e, k)
  }

  lemma {:induction false} InteractionEdges(g: Graph, ids: map<string, NodeId>, rows: seq<InteractionRow>, e: Edge)
    ensures e in AddInteractions(g, ids, rows).edges <==> e in g.edges || SomeHad(ids, rows, e)
  {
    if rows != [] {
      var n := |rows| - 1;
      InteractionEdges(g, ids, rows[..n], e);
      forall k | 0 <= k < n ensures IsHad(ids, rows[..n], e, k) <==> IsHad(ids, rows, e, k) {
      }
      assert e in AddInteractions(g, ids, rows).edges <==>
        e in AddInteractions(g, ids, rows[..n]).edges || IsHad(ids, rows, e, n);
      if exists k :: IsHad(ids, rows, e, k) {
        var k :| IsHad(ids, rows, e, k);
        assert k == n || IsHad(ids, rows[..n], e, k);
      }
    }
  }

  ghost predicate IsAreaEdge(ss: seq<Source>, e: Edge, k: int) {
    0 <= k < |ss| && Truthy(ss[k].area) && e == Edge(ss[k].id, AreaOf(ss[k]), ss[k].rel)
  }

  lemma {:induction false} AreaEdgesAre(ss: seq<Source>, e: Edge)
    ensures e in AreaEdges(ss) <==> exists k :: IsAreaEdge(ss, e, k)
  {
    if ss != [] {
      var n := |ss| - 1;
      AreaEdgesAre(ss[..n], e);
      forall k | 0 <= k < n ensures IsAreaEdge(ss[..n], e, k) <==> IsAreaEdge(ss, e, k) {
      }
      assert e in AreaEdges(ss) <==> e in AreaEdges(ss[..n]) || IsAreaEdge(ss, e, n);
      if exists k :: IsAreaEdge(ss, e, k) {
        var k :| IsAreaEdge(ss, e, k);
        assert k == n || IsAreaEdge(ss[..n], e, k);
      }
    }
  }

  // ---------------------------------------------------------------- main results

  ghost predicate NamesArea(listings: seq<ListingRow>, buyers: seq<BuyerRow>, area: string) {
    || (exists k :: 0 <= k < |listings| && Truthy(listings[k].area) && Lower(listings[k].area.value) == area)
    || (exists k :: 0 <= k < |buyers| && Truthy(buyers[k].area) && Lower(buyers[k].area.value) == area)
  }

  /** What a node stands for: a row, or a lower-cased area some listing or buyer names. */
  ghost predicate Stands(listings: seq<ListingRow>, buyers: seq<BuyerRow>, rows: seq<InteractionRow>, id: NodeId) {
    match id
    case ListingId(row) => exists k :: 0 <= k < |listings| && listings[k].id == row
    case AreaId(area) => NamesArea(listings, buyers, area)
    case BuyerId(row) => exists k :: 0 <= k < |buyers| && buyers[k].id == row
    case InteractionId(row) => exists k :: 0 <= k < |rows| && rows[k].id == row
  }

  lemma SourcesStand(listings: seq<ListingRow>, buyers: seq<BuyerRow>, id: NodeId)
    ensures IsSource(Sources(listings, buyers), id) || Names(Sources(listings, buyers), id) <==>
            !id.InteractionId? && Stands(listings, buyers, [], id)
  {
    var ss := Sources(listings, buyers);
    forall k | 0 <= k < |listings| ensures ss[k] == OfListing(listings[k]) {
    }
    forall k | 0 <= k < |buyers| ensures ss[|listings| + k] == OfBuyer(buyers[k]) {
    }
    if id.AreaId? && NamesArea(listings, buyers, id.area) {
      if k :| 0 <= k < |listings| && Truthy(listings[k].area) && Lower(listings[k].area.value) == id.area {
        assert AreaOf(ss[k]) == id;
      } else {
        var k :| 0 <= k < |buyers| && Truthy(buyers[k].area) && Lower(buyers[k].area.value) == id.area;
        assert AreaOf(ss[|listings| + k]) == id;
      }
    }
  }

  lemma ProjectNodes(listings: seq<ListingRow>, buyers: seq<BuyerRow>, rows: seq<InteractionRow>)
    requires Keyed(listings, buyers, rows)
    ensures var g, p := AddSources(Sources(listings, buyers)), Project(listings, buyers, rows);
      && NodesAre(g, Sources(listings, buyers))
      && |p.nodes| == |g.nodes| + |rows| && g.nodes <= p.nodes
      && forall k :: 0 <= k < |rows| ==> p.nodes[|g.nodes| + k].id == InteractionId(rows[k].id)
  {
    KeyedSources(listings, buyers);
    SourceNodes(Sources(listings, buyers));
    InteractionNodes(AddSources(Sources(listings, buyers)), BuyerIds(buyers), rows);
  }

  lemma ProjectDistinct(listings: seq<ListingRow>, buyers: seq<BuyerRow>, rows: seq<InteractionRow>)
    requires Keyed(listings, buyers, rows)
    ensures DistinctNodes(Project(listings, buyers, rows).nodes)
  {
    ProjectNodes(listings, buyers, rows);
    var g, nodes := AddSources(Sources(listings, buyers)), Project(listings, buyers, rows).nodes;
    var n := |g.nodes|;
    forall j, k | 0 <= j < k < |nodes| ensures nodes[j].id != nodes[k].id {
      if k < n {
        assert nodes[j] == g.nodes[j] && nodes[k] == g.nodes[k];
      } else {
        assert nodes[n + (k - n)].id == InteractionId(rows[k - n].id);
        if j < n {
          NoInteraction(listings, buyers, j);
          assert nodes[j] == g.nodes[j];
        } else {
          assert nodes[n + (j - n)].id == InteractionId(rows[j - n].id);
        }
      }
    }
  }

  /** Interaction nodes follow the others. */
  lemma ProjectSplit(g: Graph, ids: map<string, NodeId>, rows: seq<InteractionRow>, id: NodeId)
    ensures HasNode(AddInteractions(g, ids, rows).nodes, id) <==>
      HasNode(g.nodes, id) || exists k :: 0 <= k < |rows| && id == InteractionId(rows[k].id)
  {
    InteractionNodes(g, ids, rows);
    var nodes, n := AddInteractions(g, ids, rows).nodes, |g.nodes|;
    assert nodes[..n] == g.nodes;
    HasNodeSplit(nodes, n, id);
    if k :| n <= k < |nodes| && nodes[k].id == id {
      assert nodes[n + (k - n)].id == InteractionId(rows[k - n].id);
    }
    if k :| 0 <= k < |rows| && id == InteractionId(rows[k].id) {
      assert nodes[n + k].id == id;
    }
  }

  lemma ProjectStands(listings: seq<ListingRow>, buyers: seq<BuyerRow>, rows: seq<InteractionRow>, id: NodeId)
    requires Keyed(listings, buyers, rows)
    ensures HasNode(Project(listings, buyers, rows).nodes, id) <==> Stands(listings, buyers, rows, id)
  {
    ProjectSplit(AddSources(Sources(listings, buyers)), BuyerIds(buyers), rows, id);
    KeyedSources(listings, buyers);
    SourceNodes(Sources(listings, buyers));
    SourcesStand(listings, buyers, id);
  }

  lemma PrintsDistinct(nodes: seq<Node>)
    requires DistinctNodes(nodes)
    ensures forall j, k :: 0 <= j < k < |nodes| ==> Print(nodes[j].id) != Print(nodes[k].id)
  {
    forall j, k | 0 <= j < k < |nodes| ensures Print(nodes[j].id) != Print(nodes[k].id) {
      if Print(nodes[j].id) == Print(nodes[k].id) {
        PrintInjective(nodes[j].id, nodes[k].id);
      }
    }
  }

  /** The nodes are the rows of the three tables and the lower-cased areas named, one each: printed ids are
      distinct, and two spellings of an area share one node. */
  lemma NodesAreRowsAndAreas(listings: seq<ListingRow>, buyers: seq<BuyerRow>, rows: seq<InteractionRow>)
    requires Keyed(listings, buyers, rows)
    ensures var nodes := Project(listings, buyers, rows).nodes;
      && (forall id :: HasNode(nodes, id) <==> Stands(listings, buyers, rows, id))
      && (forall j, k :: 0 <= j < k < |nodes| ==> Print(nodes[j].id) != Print(nodes[k].id))
  {
    var nodes := Project(listings, buyers, rows).nodes;
    forall id ensures HasNode(nodes, id) <==> Stands(listings, buyers, rows, id) {
      ProjectStands(listings, buyers, rows, id);
    }
    ProjectDistinct(listings, buyers, rows);
    PrintsDistinct(nodes);
  }

  lemma NoInteraction(listings: seq<ListingRow>, buyers: seq<BuyerRow>, k: nat)
    requires Keyed(listings, buyers, []) && k < |AddSources(Sources(listings, buyers)).nodes|
    ensures !AddSources(Sources(listings, buyers)).nodes[k].id.InteractionId?
  {
    var nodes := AddSources(Sources(listings, buyers)).nodes;
    KeyedSources(listings, buyers);
    SourceNodes(Sources(listings, buyers));
    assert HasNode(nodes, nodes[k].id);
    SourcesStand(listings, buyers, nodes[k].id);
  }

  lemma HasNodeSplit(nodes: seq<Node>, n: nat, id: NodeId)
    requires n <= |nodes|
    ensures HasNode(nodes, id) <==> HasNode(nodes[..n], id) || exists k :: n <= k < |nodes| && nodes[k].id == id
  {
    if k :| 0 <= k < |nodes| && nodes[k].id == id && k < n {
      assert nodes[..n][k].id == id;
    }
  }

  /** The node of a source, or the node an area gets from the first source to name it. */
  ghost predicate FromSource(ss: seq<Source>, n: Node, k: int) {
    && 0 <= k < |ss|
    && (n == Node(ss[k].id, ss[k].caption) ||
        (Truthy(ss[k].area) && n == Node(AreaOf(ss[k]), ss[k].area.value) && !Names(ss[..k], n.id)))
  }

  lemma {:induction false} SourceCaptions(ss: seq<Source>, i: nat) returns (k: int)
    requires DistinctSources(ss) && NoAreaSource(ss) && i < |AddSources(ss).nodes|
    ensures FromSource(ss, AddSources(ss).nodes[i], k)
  {
    var front, s := ss[..|ss| - 1], ss[|ss| - 1];
    assert ss == front + [s];
    var g := AddSources(front);
    if i < |g.nodes| {
      k := SourceCaptions(front, i);
      assert ss[..k] == front[..k];
    } else {
      k := |ss| - 1;
      SourceNodes(front);
    }
  }

  /** What a node's caption says: the address, the name or else the phone, the kind, or an area in the spelling of
      the first row that named it. */
  ghost predicate Captioned(listings: seq<ListingRow>, buyers: seq<BuyerRow>, rows: seq<InteractionRow>, n: Node) {
    match n.id
    case ListingId(row) => exists k :: 0 <= k < |listings| && listings[k].id == row && listings[k].address == n.caption
    case BuyerId(row) =>
      (exists k :: 0 <= k < |buyers| && buyers[k].id == row &&
                   n.caption == if Truthy(buyers[k].name) then buyers[k].name.value else buyers[k].phone)
    case InteractionId(row) => exists k :: 0 <= k < |rows| && rows[k].id == row && rows[k].kind == n.caption
    case AreaId(area) =>
      (var ss := Sources(listings, buyers);
       exists k :: 0 <= k < |ss| && ss[k].area == Some(n.caption) && Lower(n.caption) == area && !Names(ss[..k], n.id))
  }

  lemma {:induction false} InteractionCaptions(g: Graph, ids: map<string, NodeId>, rows: seq<InteractionRow>, i: nat)
    requires i < |rows|
    ensures var nodes := AddInteractions(g, ids, rows).nodes;
      |nodes| == |g.nodes| + |rows| && nodes[|g.nodes| + i] == Node(InteractionId(rows[i].id), rows[i].kind)
  {
    InteractionNodes(g, ids, rows);
    if i < |rows| - 1 {
      InteractionCaptions(g, ids, rows[..|rows| - 1], i);
    } else {
      InteractionNodes(g, ids, rows[..|rows| - 1]);
    }
  }

  lemma SourceCaptioned(listings: seq<ListingRow>, buyers: seq<BuyerRow>, rows: seq<InteractionRow>, n: Node, k: int)
    requires FromSource(Sources(listings, buyers), n, k)
    ensures Captioned(listings, buyers, rows, n)
  {
    SourceAt(listings, buyers);
    var ss := Sources(listings, buyers);
    if k < |listings| {
      assert ss[k] == OfListing(listings[k]);
    } else {
      assert ss[|listings| + (k - |listings|)] == OfBuyer(buyers[k - |listings|]);
    }
  }

  /** Every node is captioned from the row it stands for. */
  lemma NodesAreCaptioned(listings: seq<ListingRow>, buyers: seq<BuyerRow>, rows: seq<InteractionRow>, i: nat)
    requires Keyed(listings, buyers, rows) && i < |Project(listings, buyers, rows).nodes|
    ensures Captioned(listings, buyers, rows, Project(listings, buyers, rows).nodes[i])
  {
    var ss := Sources(listings, buyers);
    var g := AddSources(ss);
    InteractionNodes(g, BuyerIds(buyers), rows);
    if i < |g.nodes| {
      KeyedSources(listings, buyers);
      var k := SourceCaptions(ss, i);
      SourceCaptioned(listings, buyers, rows, g.nodes[i], k);
    } else {
      InteractionCaptions(g, BuyerIds(buyers), rows, i - |g.nodes|);
    }
  }

  /** What the edges say: a listing's area, a buyer's wanted area, an interaction's known buyer. */
  ghost predicate Says(listings: seq<ListingRow>, buyers: seq<BuyerRow>, rows: seq<InteractionRow>, e: Edge) {
    match e.rel
    case LocatedIn =>
      (exists k :: 0 <= k < |listings| && Truthy(listings[k].area) &&
                   e.source == ListingId(listings[k].id) && e.target == AreaId(Lower(listings[k].area.value)))
    case WantsIn =>
      (exists k :: 0 <= k < |buyers| && Truthy(buyers[k].area) &&
                   e.source == BuyerId(buyers[k].id) && e.target == AreaId(Lower(buyers[k].area.value)))
    case Had =>
      (exists j, k :: 0 <= j < |buyers| && 0 <= k < |rows| && rows[k].phoneKey == Some(buyers[j].phoneKey) &&
                      e.source == BuyerId(buyers[j].id) && e.target == InteractionId(rows[k].id))
  }

  lemma SourceAt(listings: seq<ListingRow>, buyers: seq<BuyerRow>)
    ensures var ss := Sources(listings, buyers);
      && |ss| == |listings| + |buyers|
      && (forall k :: 0 <= k < |listings| ==> ss[k] == OfListing(listings[k]))
      && (forall k :: 0 <= k < |buyers| ==> ss[|listings| + k] == OfBuyer(buyers[k]))
  {
  }

  lemma AreaSaid(listings: seq<ListingRow>, buyers: seq<BuyerRow>, rows: seq<InteractionRow>, e: Edge, k: nat)
    requires IsAreaEdge(Sources(listings, buyers), e, k)
    ensures e.rel != Had && Says(listings, buyers, rows, e)
  {
    var ss := Sources(listings, buyers);
    SourceAt(listings, buyers);
    if k < |listings| {
      assert ss[k] == OfListing(listings[k]);
    } else {
      assert ss[|listings| + (k - |listings|)] == OfBuyer(buyers[k - |listings|]);
    }
  }

  lemma AreaSays(listings: seq<ListingRow>, buyers: seq<BuyerRow>, rows: seq<InteractionRow>, e: Edge)
    ensures e in AreaEdges(Sources(listings, buyers)) <==> e.rel != Had && Says(listings, buyers, rows, e)
  {
    var ss := Sources(listings, buyers);
    AreaEdgesAre(ss, e);
    SourceAt(listings, buyers);
    if k: nat :| IsAreaEdge(ss, e, k) {
      AreaSaid(listings, buyers, rows, e, k);
    }
    if e.rel != Had && Says(listings, buyers, rows, e) {
      if e.rel == LocatedIn {
        var k :| 0 <= k < |listings| && Truthy(listings[k].area)
          && e.source == ListingId(listings[k].id) && e.target == AreaId(Lower(listings[k].area.value));
        assert IsAreaEdge(ss, e, k);
      } else {
        var k :| 0 <= k < |buyers| && Truthy(buyers[k].area)
          && e.source == BuyerId(buyers[k].id) && e.target == AreaId(Lower(buyers[k].area.value));
        assert IsAreaEdge(ss, e, |listings| + k);
      }
    }
  }

  lemma HadSays(listings: seq<ListingRow>, buyers: seq<BuyerRow>, rows: seq<InteractionRow>, e: Edge)
    requires Keyed(listings, buyers, rows)
    ensures SomeHad(BuyerIds(buyers), rows, e) <==> e.rel == Had && Says(listings, buyers, rows, e)
  {
    var ids := BuyerIds(buyers);
    if k :| IsHad(ids, rows, e, k) {
      BuyerIdsIs(buyers, rows[k].phoneKey.value);
    }
    if e.rel == Had && Says(listings, buyers, rows, e) {
      var j, k :| 0 <= j < |buyers| && 0 <= k < |rows| && rows[k].phoneKey == Some(buyers[j].phoneKey)
        && e.source == BuyerId(buyers[j].id) && e.target == InteractionId(rows[k].id);
      BuyerIdsIs(buyers, buyers[j].phoneKey);
      assert IsHad(ids, rows, e, k);
    }
  }

  lemma SaidEndsStand(listings: seq<ListingRow>, buyers: seq<BuyerRow>, rows: seq<InteractionRow>, e: Edge)
    requires Says(listings, buyers, rows, e)
    ensures Stands(listings, buyers, rows, e.source) && Stands(listings, buyers, rows, e.target)
  {
  }

  /** The edges are exactly what the rows say, and both ends of each are nodes. */
  lemma EdgesSayAndEnd(listings: seq<ListingRow>, buyers: seq<BuyerRow>, rows: seq<InteractionRow>, e: Edge)
    requires Keyed(listings, buyers, rows)
    ensures var g := Project(listings, buyers, rows);
      && (e in g.edges <==> Says(listings, buyers, rows, e))
      && (e in g.edges ==> HasNode(g.nodes, e.source) && HasNode(g.nodes, e.target))
  {
    var ss := Sources(listings, buyers);
    SourceEdges(ss);
    InteractionEdges(AddSources(ss), BuyerIds(buyers), rows, e);
    AreaSays(listings, buyers, rows, e);
    HadSays(listings, buyers, rows, e);
    if Says(listings, buyers, rows, e) {
      SaidEndsStand(listings, buyers, rows, e);
      ProjectStands(listings, buyers, rows, e.source);
      ProjectStands(listings, buyers, rows, e.target);
    }
  }

  ghost predicate DistinctEdges(edges: seq<Edge>) {
    forall j, k :: 0 <= j < k < |edges| ==> edges[j] != edges[k]
  }

  lemma {:induction false} AreaEdgesOnce(ss: seq<Source>)
    requires DistinctSources(ss)
    ensures DistinctEdges(AreaEdges(ss))
  {
    if ss != [] {
      var front, s := ss[..|ss| - 1], ss[|ss| - 1];
      AreaEdgesOnce(front);
      if Truthy(s.area) {
        var e := Edge(s.id, AreaOf(s), s.rel);
        AreaEdgesAre(front, e);
        assert e !in AreaEdges(front);
      }
    }
  }

  lemma {:induction false} HadEdgesOnce(g: Graph, ids: map<string, NodeId>, rows: seq<InteractionRow>)
    requires DistinctEdges(g.edges) && forall i :: 0 <= i < |g.edges| ==> g.edges[i].rel != Had
    requires forall j, k :: 0 <= j < k < |rows| ==> rows[j].id != rows[k].id
    ensures DistinctEdges(AddInteractions(g, ids, rows).edges)
  {
    if rows != [] {
      var n := |rows| - 1;
      HadEdgesOnce(g, ids, rows[..n]);
      var edges := AddInteractions(g, ids, rows[..n]).edges;
      if rows[n].phoneKey.Some? && rows[n].phoneKey.value in ids {
        var e := Edge(ids[rows[n].phoneKey.value], InteractionId(rows[n].id), Had);
        InteractionEdges(g, ids, rows[..n], e);
        assert e !in edges;
        assert AddInteractions(g, ids, rows).edges == edges + [e];
      }
    }
  }

  /** No edge is listed twice. */
  lemma EdgesOnce(listings: seq<ListingRow>, buyers: seq<BuyerRow>, rows: seq<InteractionRow>)
    requires Keyed(listings, buyers, rows)
    ensures DistinctEdges(Project(listings, buyers, rows).edges)
  {
    var ss := Sources(listings, buyers);
    KeyedSources(listings, buyers);
    SourceEdges(ss);
    AreaEdgesOnce(ss);
    var g := AddSources(ss);
    forall i | 0 <= i < |g.edges| ensures g.edges[i].rel != Had {
      assert g.edges[i] in AreaEdges(ss);
      AreaSays(listings, buyers, rows, g.edges[i]);
    }
    HadEdgesOnce(g, BuyerIds(buyers), rows);
  }

  // ---------------------------------------------------------------- the browser

  /** The types the legend colours include no interaction. */
  predicate Coloured(n: Node) {
    !n.id.InteractionId?
  }

  function Kept(nodes: seq<Node>): seq<Node> {
    if nodes == [] then []
    else Kept(nodes[..|nodes| - 1]) + (if Coloured(nodes[|nodes| - 1]) then [nodes[|nodes| - 1]] else [])
  }

  function Ids(nodes: seq<Node>): set<NodeId> {
    set n | n in nodes :: n.id
  }

  function Links(edges: seq<Edge>, ids: set<NodeId>): seq<Edge> {
    if edges == [] then []
    else
      var e := edges[|edges| - 1];
      Links(edges[..|edges| - 1], ids) + (if e.source in ids && e.target in ids then [e] else [])
  }

  /** What the browser draws of the nodes and edges it is sent. */
  function Drawn(nodes: seq<Node>, edges: seq<Edge>): (seq<Node>, seq<Edge>) {
    (Kept(nodes), Links(edges, Ids(Kept(nodes))))
  }

  lemma {:induction false} LinksAre(edges: seq<Edge>, ids: set<NodeId>, e: Edge)
    ensures e in Links(edges, ids) <==> e in edges && e.source in ids && e.target in ids
  {
    if edges != [] {
      LinksAre(edges[..|edges| - 1], ids, e);
    }
  }

  lemma {:induction false} KeptAre(nodes: seq<Node>, id: NodeId)
    ensures id in Ids(Kept(nodes)) <==> HasNode(nodes, id) && !id.InteractionId?
  {
    if nodes != [] {
      var front, n := nodes[..|nodes| - 1], nodes[|nodes| - 1];
      KeptAre(front, id);
      assert nodes == front + [n];
      HasNodeSnoc(front, n, id);
      assert id in Ids(Kept(nodes)) <==> id in Ids(Kept(front)) || (Coloured(n) && n.id == id);
    }
  }

  /** After the cut, the browser draws exactly the area edges whose both ends survived, and no edge to an
      interaction ever: the legend has no colour for one. */
  lemma DrawnIff(listings: seq<ListingRow>, buyers: seq<BuyerRow>, rows: seq<InteractionRow>, cap: nat, e: Edge)
    requires Keyed(listings, buyers, rows)
    ensures var g := Project(listings, buyers, rows);
      var sent := g.nodes[..Min(cap, |g.nodes|)];
      e in Drawn(sent, g.edges).1 <==>
      Says(listings, buyers, rows, e) && e.rel != Had && HasNode(sent, e.source) && HasNode(sent, e.target)
  {
    var g := Project(listings, buyers, rows);
    var sent := g.nodes[..Min(cap, |g.nodes|)];
    LinksAre(g.edges, Ids(Kept(sent)), e);
    KeptAre(sent, e.source);
    KeptAre(sent, e.target);
    EdgesSayAndEnd(listings, buyers, rows, e);
  }

  /** The cut loses an area edge of a surviving row only when the row is the last node kept and its area, first
      named there, is the first node cut. */
  lemma CutLosesAtMostOne(listings: seq<ListingRow>, buyers: seq<BuyerRow>, rows: seq<InteractionRow>, cap: nat,
                          e: Edge, k: nat)
    requires Keyed(listings, buyers, rows)
    requires Says(listings, buyers, rows, e) && e.rel != Had
    requires var nodes := Project(listings, buyers, rows).nodes; k < |nodes| && nodes[k].id == e.source
    ensures var g := Project(listings, buyers, rows);
      var sent := g.nodes[..Min(cap, |g.nodes|)];
      e in Drawn(sent, g.edges).1 <==> k < cap && !(k + 1 == cap < |g.nodes| && g.nodes[cap].id == e.target)
  {
    var ss, p := Sources(listings, buyers), Project(listings, buyers, rows);
    var g, sent := AddSources(ss), p.nodes[..Min(cap, |p.nodes|)];
    DrawnIff(listings, buyers, rows, cap, e);
    ProjectNodes(listings, buyers, rows);
    ProjectDistinct(listings, buyers, rows);
    KeyedSources(listings, buyers);
    SourcesTight(ss);
    SourceEdges(ss);
    AreaSays(listings, buyers, rows, e);
    var i :| 0 <= i < |g.edges| && g.edges[i] == e;
    TightGrows(g.nodes, p.nodes, e);
    SurvivesIff(p.nodes, cap, e, k);
  }

  lemma SurvivesIff(nodes: seq<Node>, cap: nat, e: Edge, k: nat)
    requires DistinctNodes(nodes)
    requires Tight(nodes, e) && k < |nodes| && nodes[k].id == e.source
    ensures var sent := nodes[..Min(cap, |nodes|)];
      HasNode(sent, e.source) && HasNode(sent, e.target) <==>
      k < cap && !(k + 1 == cap < |nodes| && nodes[cap].id == e.target)
  {
    var sent := nodes[..Min(cap, |nodes|)];
    var j, t :| 0 <= t <= j + 1 && 0 <= j < |nodes| && t < |nodes| &&
      nodes[j].id == e.source && nodes[t].id == e.target;
    SurvivesAt(nodes, cap, e.source, k);
    SurvivesAt(nodes, cap, e.target, t);
  }

  lemma SurvivesAt(nodes: seq<Node>, cap: nat, id: NodeId, k: nat)
    requires DistinctNodes(nodes) && k < |nodes| && nodes[k].id == id
    ensures forall j :: 0 <= j < |nodes| && nodes[j].id == id ==> j == k
    ensures HasNode(nodes[..Min(cap, |nodes|)], id) <==> k < cap
    ensures cap < |nodes| ==> (nodes[cap].id == id <==> k == cap)
  {
    var sent := nodes[..Min(cap, |nodes|)];
    if k < cap {
      assert sent[k].id == id;
    }
  }
}
