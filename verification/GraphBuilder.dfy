/** The graph payload of an incident page: root, upstream events and downstream consumers. */
module GraphBuilder {
  import opened PythonText
  import TableNames

  datatype Direction = Upstream | Root | Downstream

  datatype GraphNode = GraphNode(id: Str, name: Str, service: Str, isRootCause: bool, direction: Direction)

  datatype PlacedNode = PlacedNode(node: GraphNode, x: int, y: int)

  datatype GraphEdge = GraphEdge(source: Str, target: Str)

  datatype Consumer = Consumer(entityFqn: Str, service: Str)

  function LabelFromFqn(fqn: Str): Str {
    var parts := TableNames.Split(fqn);
    parts[|parts| - 1]
  }

  function ServiceFromFqn(fqn: Str): Str {
    if TableNames.DOT in fqn then TableNames.Split(fqn)[0] else Text("unknown")
  }

  function RootNode(fqn: Str): GraphNode {
    GraphNode(fqn, LabelFromFqn(fqn), ServiceFromFqn(fqn), true, Root)
  }

  function EventNode(fqn: Str): GraphNode {
    GraphNode(fqn, LabelFromFqn(fqn), ServiceFromFqn(fqn), false, Upstream)
  }

  function ConsumerNode(c: Consumer): GraphNode {
    GraphNode(c.entityFqn, LabelFromFqn(c.entityFqn), c.service, false, Downstream)
  }

  function ConsumerNodes(consumers: seq<Consumer>): seq<GraphNode> {
    seq(|consumers|, i requires 0 <= i < |consumers| => ConsumerNode(consumers[i]))
  }

  function Column(d: Direction): int {
    match d case Upstream => -1 case Root => 0 case Downstream => 1
  }

  /** How many nodes of a list lie in a direction. */
  function CountIn(nodes: seq<GraphNode>, d: Direction): nat {
    if nodes == [] then 0
    else CountIn(nodes[..|nodes| - 1], d) + (if nodes[|nodes| - 1].direction == d then 1 else 0)
  }

  ghost predicate HasId(nodes: seq<GraphNode>, id: Str) {
    exists i :: 0 <= i < |nodes| && nodes[i].id == id
  }

  ghost predicate DistinctIds(nodes: seq<GraphNode>) {
    forall i, j :: 0 <= i < j < |nodes| ==> nodes[i].id != nodes[j].id
  }

  /** The events' entities other than the root and the consumers, in event order, with repetitions. */
  function OtherEntities(events: seq<Str>, root: Str, downstreamIds: set<Str>): seq<Str> {
    if events == [] then []
    else
      var last := events[|events| - 1];
      OtherEntities(events[..|events| - 1], root, downstreamIds)
        + (if last == root || last in downstreamIds then [] else [last])
  }

  /** Each other entity occurs as often as in the events, and nothing else occurs. */
  lemma {:induction false} OtherEntitiesExact(events: seq<Str>, root: Str, downstreamIds: set<Str>)
    ensures forall e ::
      e in OtherEntities(events, root, downstreamIds) <==> e in events && e != root && e !in downstreamIds
    ensures forall e ::
      multiset(OtherEntities(events, root, downstreamIds))[e] ==
        if e == root || e in downstreamIds then 0 else multiset(events)[e]
  {
    if events != [] {
      var n := |events| - 1;
      OtherEntitiesExact(events[..n], root, downstreamIds);
      assert events == events[..n] + [events[n]];
    }
  }

  function EventNodes(ids: seq<Str>): (nodes: seq<GraphNode>)
    ensures |nodes| == |ids| && forall i :: 0 <= i < |ids| ==> nodes[i] == EventNode(ids[i])
  {
    seq(|ids|, i requires 0 <= i < |ids| => EventNode(ids[i]))
  }

  /** One node per event on an entity that is neither the root nor downstream, in event order. */
  method BuildNodesForEvents(events: seq<Str>, root: Str, downstreamIds: set<Str>) returns (nodes: seq<GraphNode>)
    ensures nodes == EventNodes(OtherEntities(events, root, downstreamIds))
  {
    hide EventNode;
    nodes := [];
    for i := 0 to |events|
      invariant nodes == EventNodes(OtherEntities(events[..i], root, downstreamIds))
    {
      assert events[..i + 1][..i] == events[..i];
      if events[i] == root {
        continue;
      }
      if events[i] in downstreamIds {
        continue;
      }
      nodes := nodes + [EventNode(events[i])];
    }
    assert events[..|events|] == events;
  }

  function IdsOf(nodes: seq<GraphNode>): set<Str> {
    if nodes == [] then {} else IdsOf(nodes[..|nodes| - 1]) + {nodes[|nodes| - 1].id}
  }

  lemma {:induction false} IdsExact(nodes: seq<GraphNode>, id: Str)
    ensures id in IdsOf(nodes) <==> HasId(nodes, id)
  {
    if nodes != [] {
      var front := nodes[..|nodes| - 1];
      IdsExact(front, id);
      HasIdAppend(front, nodes[|nodes| - 1], id);
      assert nodes == front + [nodes[|nodes| - 1]];
    }
  }

  lemma HasIdAppend(nodes: seq<GraphNode>, node: GraphNode, id: Str)
    ensures HasId(nodes + [node], id) <==> HasId(nodes, id) || node.id == id
  {
    if HasId(nodes, id) {
      var i :| 0 <= i < |nodes| && nodes[i].id == id;
      assert (nodes + [node])[i].id == id;
    }
    assert (nodes + [node])[|nodes|] == node;
  }

  /** The first node of each id, in list order. */
  function FirstById(all: seq<GraphNode>): seq<GraphNode> {
    if all == [] then []
    else
      var kept, last := FirstById(all[..|all| - 1]), all[|all| - 1];
      if last.id in IdsOf(kept) then kept else kept + [last]
  }

  ghost predicate FirstWithId(all: seq<GraphNode>, node: GraphNode) {
    exists i :: 0 <= i < |all| && all[i] == node && !HasId(all[..i], node.id)
  }

  lemma {:induction false} FirstByIdExact(all: seq<GraphNode>)
    ensures DistinctIds(FirstById(all))
    ensures forall id :: HasId(FirstById(all), id) <==> HasId(all, id)
    ensures forall k :: 0 <= k < |FirstById(all)| ==> FirstWithId(all, FirstById(all)[k])
    ensures all != [] ==> FirstById(all) != [] && FirstById(all)[0] == all[0]
  {
    if all != [] {
      var front, last := all[..|all| - 1], all[|all| - 1];
      var kept, unique := FirstById(front), FirstById(all);
      FirstByIdExact(front);
      assert all == front + [last];
      IdsExact(kept, last.id);
      hide HasId, FirstWithId, DistinctIds, IdsOf;
      forall id ensures HasId(unique, id) <==> HasId(all, id) {
        HasIdAppend(front, last, id);
        HasIdAppend(kept, last, id);
      }
      forall k | 0 <= k < |unique| ensures FirstWithId(all, unique[k]) {
        if k < |kept| {
          FirstStaysFirst(front, last, kept[k]);
        } else {
          NewIsFirst(front, last);
        }
      }
      KeptStayDistinct(kept, last, unique);
    }
  }

  lemma FirstStaysFirst(front: seq<GraphNode>, last: GraphNode, node: GraphNode)
    requires FirstWithId(front, node)
    ensures FirstWithId(front + [last], node)
  {
    hide HasId;
    var all := front + [last];
    var i :| 0 <= i < |front| && front[i] == node && !HasId(front[..i], node.id);
    assert all[..i] == front[..i] && all[i] == node;
  }

  lemma NewIsFirst(front: seq<GraphNode>, last: GraphNode)
    requires !HasId(front, last.id)
    ensures FirstWithId(front + [last], last)
  {
    hide HasId;
    var all := front + [last];
    assert all[..|front|] == front && all[|front|] == last;
  }

  lemma KeptStayDistinct(kept: seq<GraphNode>, last: GraphNode, unique: seq<GraphNode>)
    requires DistinctIds(kept) && unique == (if HasId(kept, last.id) then kept else kept + [last])
    ensures DistinctIds(unique)
  {
  }

  /** `setdefault` in list order. */
  method KeepFirst(all: seq<GraphNode>) returns (unique: seq<GraphNode>)
    ensures unique == FirstById(all)
  {
    unique := [];
    var ids: set<Str> := {};
    for i := 0 to |all|
      invariant unique == FirstById(all[..i]) && ids == IdsOf(unique)
    {
      assert all[..i + 1][..i] == all[..i];
      if all[i].id !in ids {
        assert (unique + [all[i]])[..|unique|] == unique;
        unique := unique + [all[i]];
        ids := ids + {all[i].id};
      }
    }
    assert all[..|all|] == all;
  }

  /** Each node takes the next free row of its direction's column. */
  function Place(nodes: seq<GraphNode>): (placed: seq<PlacedNode>)
    ensures |placed| == |nodes|
  {
    if nodes == [] then []
    else
      var front, last := nodes[..|nodes| - 1], nodes[|nodes| - 1];
      Place(front) + [PlacedNode(last, Column(last.direction) * 240, CountIn(front, last.direction) * 120)]
  }

  lemma {:induction false} PlacedAt(nodes: seq<GraphNode>, k: nat)
    requires k < |nodes|
    ensures Place(nodes)[k] ==
      PlacedNode(nodes[k], Column(nodes[k].direction) * 240, CountIn(nodes[..k], nodes[k].direction) * 120)
  {
    var n := |nodes| - 1;
    if k < n {
      PlacedAt(nodes[..n], k);
      assert nodes[..n][..k] == nodes[..k];
    }
  }

  method PlaceNodes(nodes: seq<GraphNode>) returns (placed: seq<PlacedNode>)
    ensures placed == Place(nodes)
  {
    var up, root, down := 0, 0, 0;
    placed := [];
    for i := 0 to |nodes|
      invariant up == CountIn(nodes[..i], Upstream) && root == CountIn(nodes[..i], Root)
      invariant down == CountIn(nodes[..i], Downstream)
      invariant placed == Place(nodes[..i])
    {
      assert nodes[..i + 1][..i] == nodes[..i];
      var row;
      match nodes[i].direction {
        case Upstream => row, up := up, up + 1;
        case Root => row, root := root, root + 1;
        case Downstream => row, down := down, down + 1;
      }
      placed := placed + [PlacedNode(nodes[i], Column(nodes[i].direction) * 240, row * 120)];
    }
    assert nodes[..|nodes|] == nodes;
  }

  lemma {:induction false} CountGrows(nodes: seq<GraphNode>, i: nat, j: nat, d: Direction)
    requires i < j <= |nodes| && nodes[i].direction == d
    ensures CountIn(nodes[..i], d) < CountIn(nodes[..j], d)
    decreases j
  {
    assert nodes[..j][..j - 1] == nodes[..j - 1];
    if i < j - 1 {
      CountGrows(nodes, i, j - 1, d);
    } else {
      assert nodes[..j][j - 1] == nodes[i];
    }
  }

  /** No two nodes share a position. */
  lemma PositionsDistinct(nodes: seq<GraphNode>, i: nat, j: nat)
    requires i < j < |nodes|
    ensures Place(nodes)[i].x != Place(nodes)[j].x || Place(nodes)[i].y != Place(nodes)[j].y
  {
    PlacedAt(nodes, i);
    PlacedAt(nodes, j);
    if nodes[i].direction == nodes[j].direction {
      CountGrows(nodes, i, j, nodes[i].direction);
    }
  }

  /** A column with n nodes fills the rows 0 to n - 1. */
  lemma {:induction false} RowFilled(nodes: seq<GraphNode>, d: Direction, row: nat) returns (k: nat)
    requires row < CountIn(nodes, d)
    ensures k < |nodes| && nodes[k].direction == d && Place(nodes)[k].y == row * 120
  {
    var n := |nodes| - 1;
    if nodes[n].direction == d && CountIn(nodes[..n], d) == row {
      k := n;
      PlacedAt(nodes, n);
    } else {
      k := RowFilled(nodes[..n], d, row);
      PlacedAt(nodes[..n], k);
      PlacedAt(nodes, k);
      assert nodes[..n][..k] == nodes[..k];
    }
  }

  /** The part of a name after its last dot. */
  ghost predicate LastPart(fqn: Str, part: Str) {
    Text(".")[0] !in part && (part == fqn || exists rest :: fqn == rest + Text(".") + part)
  }

  /** The part of a name before its first dot, or `unknown` where there is none. */
  ghost predicate FirstPart(fqn: Str, part: Str) {
    if Text(".")[0] in fqn then Text(".")[0] !in part && exists rest :: fqn == part + Text(".") + rest
    else part == Text("unknown")
  }

  lemma PartsOfName(fqn: Str)
    ensures LastPart(fqn, LabelFromFqn(fqn)) && FirstPart(fqn, ServiceFromFqn(fqn))
  {
    var parts := TableNames.Split(fqn);
    assert Text(".") == [TableNames.DOT];
    JoinEnds(parts);
  }

  lemma {:induction false} JoinEnds(parts: seq<Str>)
    requires |parts| > 0
    ensures |parts| == 1 ==> TableNames.Join(parts) == parts[0]
    ensures |parts| > 1 ==> exists rest :: TableNames.Join(parts) == parts[0] + [TableNames.DOT] + rest
    ensures |parts| > 1 ==> exists rest :: TableNames.Join(parts) == rest + [TableNames.DOT] + parts[|parts| - 1]
  {
    if |parts| > 1 {
      JoinEnds(parts[1..]);
      var head, tail := parts[0] + [TableNames.DOT], TableNames.Join(parts[1..]);
      if |parts| == 2 {
        assert head + tail == parts[0] + [TableNames.DOT] + parts[1];
      } else {
        var rest :| tail == rest + [TableNames.DOT] + parts[1..][|parts| - 2];
        assert head + tail == (head + rest) + [TableNames.DOT] + parts[|parts| - 1];
      }
    }
  }

  /** The root is drawn as the only root cause; a consumer downstream, with its own service; any other
      entity upstream. Every label is the name's last part. */
  ghost predicate Drawing(root: Str, consumers: seq<Consumer>, node: GraphNode) {
    && LastPart(node.id, node.name) && (node.isRootCause <==> node.id == root)
    && (node.id == root ==> node.direction.Root? && FirstPart(root, node.service))
    && (node.id != root && IsConsumer(consumers, node.id) ==>
          && node.direction.Downstream?
          && exists i :: 0 <= i < |consumers| && consumers[i] == Consumer(node.id, node.service))
    && (node.id != root && !IsConsumer(consumers, node.id) ==>
          node.direction.Upstream? && FirstPart(node.id, node.service))
  }

  lemma FaithfulDrawing(root: Str, consumers: seq<Consumer>, node: GraphNode)
    requires Faithful(root, consumers, node)
    ensures Drawing(root, consumers, node)
  {
    hide LabelFromFqn, ServiceFromFqn, LastPart, FirstPart;
    PartsOfName(node.id);
    if node.id != root && IsConsumer(consumers, node.id) {
      var i :| 0 <= i < |consumers| && node == ConsumerNode(consumers[i]);
      assert consumers[i] == Consumer(node.id, node.service);
    }
  }

  /** A node stands in its direction's column, upstream left of the root and downstream right of it, in
      the row its predecessors in that direction leave free. */
  ghost predicate Positioned(placed: seq<PlacedNode>, k: nat)
    requires k < |placed|
  {
    var d := placed[k].node.direction;
    && placed[k].x == (if d.Upstream? then -240 else if d.Root? then 0 else 240)
    && placed[k].y == 120 * |set i | 0 <= i < k && placed[i].node.direction == d|
  }

  /** The earlier positions of nodes in a direction. */
  ghost function EarlierIn(nodes: seq<GraphNode>, k: nat, d: Direction): set<int>
    requires k <= |nodes|
  {
    set i | 0 <= i < k && nodes[i].direction == d
  }

  lemma OneMoreIn(nodes: seq<GraphNode>, k: nat, d: Direction)
    requires k < |nodes|
    ensures EarlierIn(nodes, k + 1, d) == EarlierIn(nodes, k, d) + (if nodes[k].direction == d then {k as int} else {})
    ensures k !in EarlierIn(nodes, k, d)
    ensures CountIn(nodes[..k + 1], d) == CountIn(nodes[..k], d) + (if nodes[k].direction == d then 1 else 0)
  {
    assert nodes[..k + 1][..k] == nodes[..k];
  }

  lemma {:induction false} CountIsCardinality(nodes: seq<GraphNode>, k: nat, d: Direction)
    requires k <= |nodes|
    ensures CountIn(nodes[..k], d) == |EarlierIn(nodes, k, d)|
  {
    if k > 0 {
      hide EarlierIn, CountIn;
      CountIsCardinality(nodes, k - 1, d);
      OneMoreIn(nodes, k - 1, d);
    }
  }

  lemma PlacePositions(nodes: seq<GraphNode>, placed: seq<PlacedNode>, k: nat)
    requires placed == Place(nodes) && k < |placed| && NodesOf(placed) == nodes
    ensures Positioned(placed, k)
  {
    hide CountIn, Place;
    PlacedAt(nodes, k);
    var d := nodes[k].direction;
    CountIsCardinality(nodes, k, d);
    assert EarlierIn(nodes, k, d) == set i | 0 <= i < k && placed[i].node.direction == d;
  }

  /** What the page relies on. */
  ghost predicate Consistent(root: Str, events: seq<Str>, consumers: seq<Consumer>,
                             placed: seq<PlacedNode>, edges: seq<GraphEdge>)
  {
    && (forall i, j :: 0 <= i < j < |placed| ==> placed[i].node.id != placed[j].node.id)
    && (forall id :: Drawn(placed, id) <==> id == root || id in events || IsConsumer(consumers, id))
    && (forall i :: 0 <= i < |placed| ==> Faithful(root, consumers, placed[i].node))
    && (forall e :: e in edges ==> Drawn(placed, e.source) && Drawn(placed, e.target))
    && (forall i :: 0 <= i < |placed| ==> placed[i].node.direction.Upstream? ==>
          GraphEdge(placed[i].node.id, root) in edges)
    && (forall i :: 0 <= i < |placed| ==> placed[i].node.direction.Downstream? ==>
          GraphEdge(root, placed[i].node.id) in edges)
  }

  ghost predicate Drawn(placed: seq<PlacedNode>, id: Str) {
    exists i :: 0 <= i < |placed| && placed[i].node.id == id
  }

  ghost predicate IsConsumer(consumers: seq<Consumer>, id: Str) {
    exists i :: 0 <= i < |consumers| && consumers[i].entityFqn == id
  }

  /** The root is drawn as the root, a consumer as its first entry, and any other entity as upstream. */
  ghost predicate Faithful(root: Str, consumers: seq<Consumer>, node: GraphNode) {
    if node.id == root then node == RootNode(root)
    else if IsConsumer(consumers, node.id) then
      exists i :: 0 <= i < |consumers| && node == ConsumerNode(consumers[i])
        && forall j :: 0 <= j < i ==> consumers[j].entityFqn != node.id
    else node == EventNode(node.id)
  }

  function UpstreamEdges(nodes: seq<GraphNode>, root: Str): seq<GraphEdge> {
    seq(|nodes|, i requires 0 <= i < |nodes| => GraphEdge(nodes[i].id, root))
  }

  function DownstreamEdges(nodes: seq<GraphNode>, root: Str): seq<GraphEdge> {
    seq(|nodes|, i requires 0 <= i < |nodes| => GraphEdge(root, nodes[i].id))
  }

  /** The upstream list holds exactly the events' other entities. */
  ghost predicate UpstreamOf(upstream: seq<GraphNode>, events: seq<Str>, root: Str, consumers: seq<Consumer>) {
    && (forall k :: 0 <= k < |upstream| ==>
          upstream[k] == EventNode(upstream[k].id) && upstream[k].id in events && upstream[k].id != root
          && !IsConsumer(consumers, upstream[k].id))
    && (forall e :: e in events && e != root && !IsConsumer(consumers, e) ==> HasId(upstream, e))
  }

  /** One edge per listed node, also for repeated ones. */
  method BuildEdges(root: Str, upstream: seq<GraphNode>, downstream: seq<GraphNode>) returns (edges: seq<GraphEdge>)
    ensures edges == UpstreamEdges(upstream, root) + DownstreamEdges(downstream, root)
  {
    edges := [];
    for i := 0 to |upstream|
      invariant edges == UpstreamEdges(upstream[..i], root)
    {
      edges := edges + [GraphEdge(upstream[i].id, root)];
    }
    assert upstream[..|upstream|] == upstream;
    for i := 0 to |downstream|
      invariant edges == UpstreamEdges(upstream, root) + DownstreamEdges(downstream[..i], root)
    {
      edges := edges + [GraphEdge(root, downstream[i].id)];
    }
    assert downstream[..|downstream|] == downstream;
  }

  lemma UpstreamListed(upstream: seq<GraphNode>, events: seq<Str>, root: Str, consumers: seq<Consumer>, ids: set<Str>)
    requires forall id :: id in ids <==> IsConsumer(consumers, id)
    requires upstream == EventNodes(OtherEntities(events, root, ids))
    ensures UpstreamOf(upstream, events, root, consumers)
  {
    hide LabelFromFqn, ServiceFromFqn, OtherEntities;
    var others := OtherEntities(events, root, ids);
    OtherEntitiesExact(events, root, ids);
    forall e | e in events && e != root && !IsConsumer(consumers, e) ensures HasId(upstream, e) {
      var i :| 0 <= i < |others| && others[i] == e;
      assert upstream[i].id == e;
    }
    forall k | 0 <= k < |upstream|
      ensures upstream[k] == EventNode(upstream[k].id) && upstream[k].id in events
      ensures upstream[k].id != root && !IsConsumer(consumers, upstream[k].id)
    {
      assert upstream[k].id == others[k] && others[k] in others;
    }
  }

  /** The payload: consistent, with the root cause alone at the origin and every column stacked from row 0. */
  method BuildGraphData(root: Str, events: seq<Str>, consumers: seq<Consumer>)
    returns (placed: seq<PlacedNode>, edges: seq<GraphEdge>)
    ensures Consistent(root, events, consumers, placed, edges)
    ensures placed != [] && placed[0] == PlacedNode(RootNode(root), 0, 0)
    ensures forall i :: 0 <= i < |placed| ==> (placed[i].node.isRootCause <==> i == 0)
    ensures forall i :: 0 <= i < |placed| ==> Drawing(root, consumers, placed[i].node) && Positioned(placed, i)
  {
    hide Consistent, UpstreamOf, RootNode, EventNode, Place, FirstById, UpstreamEdges, DownstreamEdges, Drawing,
      Positioned;
    var downstream := ConsumerNodes(consumers);
    var downstreamIds := set i | 0 <= i < |consumers| :: consumers[i].entityFqn;
    var upstream := BuildNodesForEvents(events, root, downstreamIds);
    UpstreamListed(upstream, events, root, consumers, downstreamIds);
    var nodes := KeepFirst([RootNode(root)] + upstream + downstream);
    placed := PlaceNodes(nodes);
    edges := BuildEdges(root, upstream, downstream);
    GraphConsistent(root, events, consumers, upstream, nodes);
    PlacedNodes(nodes);
    forall i | 0 <= i < |placed| ensures Drawing(root, consumers, placed[i].node) && Positioned(placed, i) {
      FaithfulAt(root, events, consumers, placed, edges, i);
      PlacePositions(nodes, placed, i);
    }
  }

  lemma FaithfulAt(root: Str, events: seq<Str>, consumers: seq<Consumer>, placed: seq<PlacedNode>,
                   edges: seq<GraphEdge>, i: nat)
    requires Consistent(root, events, consumers, placed, edges) && i < |placed|
    ensures Drawing(root, consumers, placed[i].node)
  {
    hide Faithful, Drawing;
    FaithfulDrawing(root, consumers, placed[i].node);
  }

  lemma AllIds(root: Str, events: seq<Str>, consumers: seq<Consumer>, upstream: seq<GraphNode>, id: Str)
    requires UpstreamOf(upstream, events, root, consumers)
    ensures HasId([RootNode(root)] + upstream + ConsumerNodes(consumers), id)
      <==> id == root || id in events || IsConsumer(consumers, id)
  {
    hide LabelFromFqn, ServiceFromFqn;
    var all := [RootNode(root)] + upstream + ConsumerNodes(consumers);
    if id == root {
      assert all[0].id == id;
    } else if IsConsumer(consumers, id) {
      var i :| 0 <= i < |consumers| && consumers[i].entityFqn == id;
      assert all[1 + |upstream| + i].id == id;
    } else if id in events {
      var k :| 0 <= k < |upstream| && upstream[k].id == id;
      assert all[1 + k].id == id;
    }
    if HasId(all, id) {
      var i :| 0 <= i < |all| && all[i].id == id;
      if i > |upstream| {
        assert consumers[i - 1 - |upstream|].entityFqn == id;
      }
    }
  }

  lemma FirstIsFaithful(root: Str, events: seq<Str>, consumers: seq<Consumer>, upstream: seq<GraphNode>,
                        node: GraphNode)
    requires UpstreamOf(upstream, events, root, consumers)
    requires FirstWithId([RootNode(root)] + upstream + ConsumerNodes(consumers), node)
    ensures Faithful(root, consumers, node)
    ensures node.direction.Upstream? ==> HasId(upstream, node.id)
    ensures node.direction.Downstream? ==> IsConsumer(consumers, node.id)
  {
    hide LabelFromFqn, ServiceFromFqn;
    var all := [RootNode(root)] + upstream + ConsumerNodes(consumers);
    var i :| 0 <= i < |all| && all[i] == node && !HasId(all[..i], node.id);
    if 0 < i {
      assert all[..i][0].id == root;
      if i <= |upstream| {
        assert upstream[i - 1] == node;
      } else {
        var c := i - 1 - |upstream|;
        assert node == ConsumerNode(consumers[c]);
        forall j | 0 <= j < c ensures consumers[j].entityFqn != node.id {
          assert all[..i][1 + |upstream| + j].id == consumers[j].entityFqn;
        }
      }
    }
  }

  /** What the listed nodes are, before they are placed. */
  lemma NodesFaithful(root: Str, events: seq<Str>, consumers: seq<Consumer>, upstream: seq<GraphNode>,
                      nodes: seq<GraphNode>)
    requires UpstreamOf(upstream, events, root, consumers)
    requires nodes == FirstById([RootNode(root)] + upstream + ConsumerNodes(consumers))
    ensures DistinctIds(nodes) && nodes != [] && nodes[0] == RootNode(root)
    ensures forall id :: HasId(nodes, id) <==> id == root || id in events || IsConsumer(consumers, id)
    ensures forall k :: 0 <= k < |nodes| ==> Faithful(root, consumers, nodes[k])
    ensures forall k :: 0 <= k < |nodes| ==> (nodes[k].direction.Upstream? ==> HasId(upstream, nodes[k].id))
    ensures forall k :: 0 <= k < |nodes| ==> (nodes[k].direction.Downstream? ==> IsConsumer(consumers, nodes[k].id))
  {
    hide FirstById, UpstreamOf, FirstWithId, RootNode, Faithful, HasId, IsConsumer;
    var all := [RootNode(root)] + upstream + ConsumerNodes(consumers);
    FirstByIdExact(all);
    forall k | 0 <= k < |nodes|
      ensures Faithful(root, consumers, nodes[k])
      ensures nodes[k].direction.Upstream? ==> HasId(upstream, nodes[k].id)
      ensures nodes[k].direction.Downstream? ==> IsConsumer(consumers, nodes[k].id)
    {
      FirstIsFaithful(root, events, consumers, upstream, nodes[k]);
    }
    forall id ensures HasId(nodes, id) <==> id == root || id in events || IsConsumer(consumers, id) {
      AllIds(root, events, consumers, upstream, id);
    }
  }

  function NodesOf(placed: seq<PlacedNode>): (nodes: seq<GraphNode>)
    ensures |nodes| == |placed| && forall i :: 0 <= i < |placed| ==> nodes[i] == placed[i].node
  {
    seq(|placed|, i requires 0 <= i < |placed| => placed[i].node)
  }

  lemma PlacedNodes(nodes: seq<GraphNode>)
    ensures NodesOf(Place(nodes)) == nodes
    ensures forall k :: 0 <= k < |nodes| ==> Place(nodes)[k].node == nodes[k]
    ensures nodes != [] && nodes[0].direction.Root? ==> Place(nodes)[0] == PlacedNode(nodes[0], 0, 0)
  {
    forall k | 0 <= k < |nodes| ensures Place(nodes)[k].node == nodes[k] {
      PlacedAt(nodes, k);
    }
    if nodes != [] {
      PlacedAt(nodes, 0);
      assert nodes[..0] == [];
    }
  }

  /** Only the root's node is a root cause. */
  lemma OneRootCause(root: Str, consumers: seq<Consumer>, nodes: seq<GraphNode>, i: nat)
    requires DistinctIds(nodes) && i < |nodes| && nodes[0] == RootNode(root) && Faithful(root, consumers, nodes[i])
    ensures nodes[i].isRootCause <==> i == 0
  {
    hide LabelFromFqn, ServiceFromFqn;
    assert i > 0 ==> nodes[0].id != nodes[i].id;
  }

  lemma GraphConsistent(root: Str, events: seq<Str>, consumers: seq<Consumer>, upstream: seq<GraphNode>,
                        nodes: seq<GraphNode>)
    requires UpstreamOf(upstream, events, root, consumers)
    requires nodes == FirstById([RootNode(root)] + upstream + ConsumerNodes(consumers))
    ensures Consistent(root, events, consumers, Place(nodes),
                       UpstreamEdges(upstream, root) + DownstreamEdges(ConsumerNodes(consumers), root))
    ensures nodes != [] && Place(nodes)[0] == PlacedNode(RootNode(root), 0, 0)
    ensures forall i :: 0 <= i < |nodes| ==> (Place(nodes)[i].node.isRootCause <==> i == 0)
  {
    hide Place, FirstById, UpstreamOf, LabelFromFqn, ServiceFromFqn, Faithful, IsConsumer, HasId, Drawn,
      UpstreamEdges, DownstreamEdges, ConsumerNodes;
    NodesFaithful(root, events, consumers, upstream, nodes);
    PlacedNodes(nodes);
    forall id ensures Drawn(Place(nodes), id) <==> id == root || id in events || IsConsumer(consumers, id) {
      DrawnIffListed(nodes, Place(nodes), id);
    }
    forall i | 0 <= i < |nodes| ensures nodes[i].isRootCause <==> i == 0 {
      OneRootCause(root, consumers, nodes, i);
    }
    EdgesConsistent(root, events, consumers, upstream, nodes, Place(nodes));
  }

  lemma DrawnIffListed(nodes: seq<GraphNode>, placed: seq<PlacedNode>, id: Str)
    requires |placed| == |nodes| && forall k :: 0 <= k < |nodes| ==> placed[k].node == nodes[k]
    ensures Drawn(placed, id) <==> HasId(nodes, id)
  {
    if HasId(nodes, id) {
      var i :| 0 <= i < |nodes| && nodes[i].id == id;
      assert placed[i].node.id == id;
    }
  }

  lemma EdgesConsistent(root: Str, events: seq<Str>, consumers: seq<Consumer>, upstream: seq<GraphNode>,
                        nodes: seq<GraphNode>, placed: seq<PlacedNode>)
    requires UpstreamOf(upstream, events, root, consumers)
    requires |placed| == |nodes| && forall k :: 0 <= k < |nodes| ==> placed[k].node == nodes[k]
    requires forall id :: Drawn(placed, id) <==> id == root || id in events || IsConsumer(consumers, id)
    requires forall k :: 0 <= k < |nodes| ==>
      && (nodes[k].direction.Upstream? ==> HasId(upstream, nodes[k].id))
      && (nodes[k].direction.Downstream? ==> IsConsumer(consumers, nodes[k].id))
    ensures var edges := UpstreamEdges(upstream, root) + DownstreamEdges(ConsumerNodes(consumers), root);
      && (forall e :: e in edges ==> Drawn(placed, e.source) && Drawn(placed, e.target))
      && (forall i :: 0 <= i < |placed| ==> placed[i].node.direction.Upstream? ==>
            GraphEdge(placed[i].node.id, root) in edges)
      && (forall i :: 0 <= i < |placed| ==> placed[i].node.direction.Downstream? ==>
            GraphEdge(root, placed[i].node.id) in edges)
  {
    hide LabelFromFqn, ServiceFromFqn;
    var ups, downs := UpstreamEdges(upstream, root), DownstreamEdges(ConsumerNodes(consumers), root);
    forall e: GraphEdge | e in ups + downs ensures Drawn(placed, e.source) && Drawn(placed, e.target) {
      if e in ups {
        var k :| 0 <= k < |ups| && ups[k] == e;
        assert upstream[k].id in events;
      } else {
        var k :| 0 <= k < |downs| && downs[k] == e;
        assert consumers[k].entityFqn == e.target;
        assert IsConsumer(consumers, e.target);
      }
    }
    forall i | 0 <= i < |placed| && placed[i].node.direction.Upstream?
      ensures GraphEdge(placed[i].node.id, root) in ups
    {
      var k :| 0 <= k < |upstream| && upstream[k].id == nodes[i].id;
      assert ups[k] == GraphEdge(nodes[i].id, root);
    }
    forall i | 0 <= i < |placed| && placed[i].node.direction.Downstream?
      ensures GraphEdge(root, placed[i].node.id) in downs
    {
      var k :| 0 <= k < |consumers| && consumers[k].entityFqn == nodes[i].id;
      assert downs[k] == GraphEdge(root, nodes[i].id);
    }
  }
}
