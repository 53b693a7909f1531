/** From a lineage response to the sorted node list and the blast radius. */
module LineageNodes {
  import opened PythonText
  import opened Sorting
  import opened Lineage
  import TableNames
  import opened Wrappers

  /** A node of the response; the three name fields are blank when missing. */
  datatype RawNode =
    | NotADict
    | Record(id: Str, fullyQualifiedName: Str, fqn: Str, name: Str)

  /** `None` stands for a missing field or one that is not a list. */
  datatype Response = Response(nodes: Option<seq<RawNode>>, edges: Option<seq<Edge>>, directionEdges: Option<seq<Edge>>)

  datatype LineageNode = LineageNode(fqn: Str, level: nat)

  /** The common edge list if there is one, else the list kept for the direction. */
  function EdgesOf(raw: Response): Option<seq<Edge>> {
    if raw.edges.Some? then raw.edges else raw.directionEdges
  }

  /** The edges that count: the common list, or the direction's own list where there is no common one. */
  ghost predicate Counts(raw: Response, edges: seq<Edge>) {
    raw.edges == Some(edges) || (raw.edges.None? && raw.directionEdges == Some(edges))
  }

  /** A node goes by its full name, else by its `fqn`, else by its short name. */
  ghost predicate Named(node: RawNode, name: Str) {
    && node.Record?
    && (node.fullyQualifiedName != [] ==> name == node.fullyQualifiedName)
    && (node.fullyQualifiedName == [] && node.fqn != [] ==> name == node.fqn)
    && (node.fullyQualifiedName == [] && node.fqn == [] ==> name == node.name)
  }

  /** The first name field that is not blank. */
  function NodeName(node: RawNode): (name: Str)
    requires node.Record?
    ensures Named(node, name)
  {
    if node.fullyQualifiedName != [] then node.fullyQualifiedName
    else if node.fqn != [] then node.fqn
    else node.name
  }

  predicate NodeLeq(a: LineageNode, b: LineageNode) {
    a.level < b.level || (a.level == b.level && LexLeq(a.fqn, b.fqn))
  }

  /** By level, and by name within a level. */
  ghost predicate ByLevelAndName(nodes: seq<LineageNode>) {
    forall i, j :: 0 <= i < j < |nodes| ==>
      nodes[i].level < nodes[j].level || (nodes[i].level == nodes[j].level && LexLeq(nodes[i].fqn, nodes[j].fqn))
  }

  lemma NodeLeqIsPreorder()
    ensures TotalPreorder(NodeLeq)
  {
    forall a: LineageNode, b: LineageNode ensures NodeLeq(a, b) || NodeLeq(b, a) {
      LexTotal(a.fqn, b.fqn);
    }
    forall a: LineageNode, b: LineageNode, c: LineageNode | NodeLeq(a, b) && NodeLeq(b, c) ensures NodeLeq(a, c) {
      if a.level == b.level == c.level {
        LexTransitive(a.fqn, b.fqn, c.fqn);
      }
    }
  }

  /** The last record with a given id wins; blank ids and non-dict nodes are skipped. */
  ghost predicate IsRecordOf(nodes: seq<RawNode>, id: Str, node: RawNode) {
    && node.Record? && node.id == id && id != []
    && exists i :: 0 <= i < |nodes| && nodes[i] == node
         && forall j :: i < j < |nodes| ==> !(nodes[j].Record? && nodes[j].id == id)
  }

  ghost predicate Recorded(nodes: seq<RawNode>, id: Str) {
    id != [] && exists i :: 0 <= i < |nodes| && nodes[i].Record? && nodes[i].id == id
  }

  method IndexNodes(nodes: seq<RawNode>) returns (byId: map<Str, RawNode>)
    ensures forall id :: id in byId <==> Recorded(nodes, id)
    ensures forall id :: id in byId ==> IsRecordOf(nodes, id, byId[id])
  {
    byId := map[];
    for i := 0 to |nodes|
      invariant forall id :: id in byId <==> Recorded(nodes[..i], id)
      invariant forall id :: id in byId ==> IsRecordOf(nodes[..i], id, byId[id])
    {
      ghost var before := byId;
      if nodes[i].Record? && nodes[i].id != [] {
        byId := byId[nodes[i].id := nodes[i]];
      }
      forall id ensures id in byId <==> Recorded(nodes[..i + 1], id)
                ensures id in byId ==> IsRecordOf(nodes[..i + 1], id, byId[id])
      {
        IndexStep(nodes, i, id);
        if id in before && byId[id] == before[id] && !(nodes[i].Record? && nodes[i].id == id) {
          RecordKept(nodes, i, id, before[id]);
        }
      }
    }
    assert nodes[..|nodes|] == nodes;
  }

  lemma IndexStep(nodes: seq<RawNode>, i: nat, id: Str)
    requires i < |nodes|
    ensures Recorded(nodes[..i + 1], id)
      <==> Recorded(nodes[..i], id) || (id != [] && nodes[i].Record? && nodes[i].id == id)
    ensures id != [] && nodes[i].Record? && nodes[i].id == id ==> IsRecordOf(nodes[..i + 1], id, nodes[i])
  {
    if Recorded(nodes[..i], id) {
      var j :| 0 <= j < i && nodes[..i][j].Record? && nodes[..i][j].id == id;
      assert nodes[..i + 1][j].id == id;
    }
    if id != [] && nodes[i].Record? && nodes[i].id == id {
      assert nodes[..i + 1][i] == nodes[i];
    }
    if Recorded(nodes[..i + 1], id) && !(nodes[i].Record? && nodes[i].id == id) {
      var j :| 0 <= j < i + 1 && nodes[..i + 1][j].Record? && nodes[..i + 1][j].id == id;
      assert nodes[..i][j].id == id;
    }
  }

  lemma RecordKept(nodes: seq<RawNode>, i: nat, id: Str, node: RawNode)
    requires i < |nodes| && IsRecordOf(nodes[..i], id, node) && !(nodes[i].Record? && nodes[i].id == id)
    ensures IsRecordOf(nodes[..i + 1], id, node)
  {
    var front, more := nodes[..i], nodes[..i + 1];
    var k :| 0 <= k < |front| && front[k] == node
      && forall j :: k < j < |front| ==> !(front[j].Record? && front[j].id == id);
    assert more[k] == node;
    forall j | k < j < |more| ensures !(more[j].Record? && more[j].id == id) {
      if j < i {
        assert more[j] == front[j];
      }
    }
  }

  ghost predicate WithinDepth(edges: seq<Edge>, d: Direction, root: Str, depth: int, n: Str) {
    exists k: nat :: 1 <= k <= depth && AtDistance(edges, d, root, n, k)
  }

  /** One entry per node within depth that has a record, named after its record, at its distance. */
  ghost predicate Lists(nodes: seq<RawNode>, edges: seq<Edge>, root: Str, d: Direction, depth: int,
                        ids: seq<Str>, entries: seq<LineageNode>)
  {
    && |ids| == |entries|
    && (forall i, j :: 0 <= i < j < |ids| ==> ids[i] != ids[j])
    && (forall n :: n in ids <==> Recorded(nodes, n) && WithinDepth(edges, d, root, depth, n))
    && (forall i :: 0 <= i < |ids| ==> IsEntry(nodes, edges, root, d, depth, ids[i], entries[i]))
  }

  ghost predicate IsEntry(nodes: seq<RawNode>, edges: seq<Edge>, root: Str, d: Direction, depth: int,
                          id: Str, entry: LineageNode)
  {
    && 1 <= entry.level <= depth
    && AtDistance(edges, d, root, id, entry.level)
    && exists node :: IsRecordOf(nodes, id, node) && Named(node, entry.fqn)
  }

  lemma InLevels(edges: seq<Edge>, d: Direction, root: Str, depth: int, levels: map<Str, nat>, n: Str)
    requires ExactLevels(edges, d, root, depth, levels)
    ensures n in levels <==> WithinDepth(edges, d, root, depth, n)
  {
    hide AtDistance, ExactLevels;
    if n in levels {
      ExactAt(edges, d, root, depth, levels, n, levels[n]);
    }
    forall k: nat | 1 <= k <= depth && AtDistance(edges, d, root, n, k) ensures n in levels {
      ExactAt(edges, d, root, depth, levels, n, k);
    }
  }

  method ParseLineageNodes(raw: Response, root: Str, d: Direction, depth: int) returns (parsed: seq<LineageNode>)
    ensures raw.nodes.None? || (raw.edges.None? && raw.directionEdges.None?) ==> parsed == []
    ensures forall edges :: raw.nodes.Some? && Counts(raw, edges) ==>
      exists ids, entries :: Lists(raw.nodes.value, edges, root, d, depth, ids, entries)
                             && multiset(parsed) == multiset(entries)
    ensures ByLevelAndName(parsed)
    ensures forall i :: 0 <= i < |parsed| ==> 1 <= parsed[i].level <= depth
  {
    if raw.nodes.None? || EdgesOf(raw).None? {
      return [];
    }
    hide AtDistance, ExactLevels, Recorded, IsRecordOf, Collected, Lists, NodeLeq, ByLevelAndName;
    var nodes, edges := raw.nodes.value, EdgesOf(raw).value;
    var byId := IndexNodes(nodes);
    var levels, order := BuildLevels(root, edges, d, depth);
    var entries: seq<LineageNode> := [];
    ghost var ids: seq<Str> := [];
    NothingCollected(nodes, edges, root, d, depth, byId, order);
    for i := 0 to |order|
      invariant Collected(nodes, edges, root, d, depth, byId, order, i, ids, entries)
    {
      var id := order[i];
      if id in byId {
        CollectOne(nodes, edges, root, d, depth, byId, levels, order, i, ids, entries);
        entries := entries + [LineageNode(NodeName(byId[id]), levels[id])];
        ids := ids + [id];
      } else {
        SkipOne(nodes, edges, root, d, depth, byId, order, i, ids, entries);
      }
    }
    AllCollected(nodes, edges, root, d, depth, byId, levels, order, ids, entries);
    parsed := Sort(NodeLeq, entries);
    SortedEntries(entries, depth);
  }

  /** After `i` nodes of the order: one entry for each of them that has a record. */
  ghost predicate Collected(nodes: seq<RawNode>, edges: seq<Edge>, root: Str, d: Direction, depth: int,
                            byId: map<Str, RawNode>, order: seq<Str>, i: nat, ids: seq<Str>, entries: seq<LineageNode>)
  {
    && |ids| == |entries| && i <= |order|
    && (forall p, q :: 0 <= p < q < |ids| ==> ids[p] != ids[q])
    && (forall n :: n in ids <==> n in order[..i] && n in byId)
    && (forall p :: 0 <= p < |ids| ==> IsEntry(nodes, edges, root, d, depth, ids[p], entries[p]))
  }

  lemma NothingCollected(nodes: seq<RawNode>, edges: seq<Edge>, root: Str, d: Direction, depth: int,
                         byId: map<Str, RawNode>, order: seq<Str>)
    ensures Collected(nodes, edges, root, d, depth, byId, order, 0, [], [])
  {
  }

  lemma CollectOne(nodes: seq<RawNode>, edges: seq<Edge>, root: Str, d: Direction, depth: int,
                   byId: map<Str, RawNode>, levels: map<Str, nat>, order: seq<Str>, i: nat,
                   ids: seq<Str>, entries: seq<LineageNode>)
    requires i < |order| && Collected(nodes, edges, root, d, depth, byId, order, i, ids, entries)
    requires ExactLevels(edges, d, root, depth, levels)
    requires forall p, q :: 0 <= p < q < |order| ==> order[p] != order[q]
    requires order[i] in byId && order[i] in levels && IsRecordOf(nodes, order[i], byId[order[i]])
    ensures byId[order[i]].Record?
    ensures Collected(nodes, edges, root, d, depth, byId, order, i + 1, ids + [order[i]],
                      entries + [LineageNode(NodeName(byId[order[i]]), levels[order[i]])])
  {
    hide AtDistance, ExactLevels;
    var id := order[i];
    ExactAt(edges, d, root, depth, levels, id, levels[id]);
    assert id !in order[..i];
    assert order[..i + 1] == order[..i] + [id];
    assert IsEntry(nodes, edges, root, d, depth, id, LineageNode(NodeName(byId[id]), levels[id]));
    hide IsEntry, IsRecordOf;
  }

  lemma SkipOne(nodes: seq<RawNode>, edges: seq<Edge>, root: Str, d: Direction, depth: int,
                byId: map<Str, RawNode>, order: seq<Str>, i: nat, ids: seq<Str>, entries: seq<LineageNode>)
    requires i < |order| && Collected(nodes, edges, root, d, depth, byId, order, i, ids, entries)
    requires order[i] !in byId
    ensures Collected(nodes, edges, root, d, depth, byId, order, i + 1, ids, entries)
  {
    hide IsEntry;
    assert order[..i + 1] == order[..i] + [order[i]];
  }

  lemma AllCollected(nodes: seq<RawNode>, edges: seq<Edge>, root: Str, d: Direction, depth: int,
                     byId: map<Str, RawNode>, levels: map<Str, nat>, order: seq<Str>,
                     ids: seq<Str>, entries: seq<LineageNode>)
    requires Collected(nodes, edges, root, d, depth, byId, order, |order|, ids, entries)
    requires ExactLevels(edges, d, root, depth, levels)
    requires forall n :: n in order <==> n in levels
    requires forall id :: id in byId <==> Recorded(nodes, id)
    ensures Lists(nodes, edges, root, d, depth, ids, entries)
    ensures forall e :: e in entries ==> 1 <= e.level <= depth
  {
    hide AtDistance, ExactLevels, Recorded;
    assert order[..|order|] == order;
    forall n ensures n in ids <==> Recorded(nodes, n) && WithinDepth(edges, d, root, depth, n) {
      InLevels(edges, d, root, depth, levels, n);
    }
  }

  lemma SortedEntries(entries: seq<LineageNode>, depth: int)
    requires forall e :: e in entries ==> 1 <= e.level <= depth
    ensures var sorted := Sort(NodeLeq, entries);
      && ByLevelAndName(sorted) && multiset(sorted) == multiset(entries)
      && forall i :: 0 <= i < |sorted| ==> 1 <= sorted[i].level <= depth
  {
    NodeLeqIsPreorder();
    SortCorrect(NodeLeq, entries);
    SortMembers(NodeLeq, entries);
    var sorted := Sort(NodeLeq, entries);
    forall i | 0 <= i < |sorted| ensures 1 <= sorted[i].level <= depth {
      assert sorted[i] in entries;
    }
  }

  // ---------- The lineage calls and the blast radius ----------

  /** The requested depth within 1 and the configured maximum. */
  function CappedDepth(depth: int, maximum: int): (asked: int)
    ensures asked >= 1 && (1 <= depth <= maximum ==> asked == depth)
    ensures depth <= 1 || maximum <= 1 ==> asked == 1
    ensures 1 <= maximum <= depth ==> asked == maximum
  {
    var least := if depth <= maximum then depth else maximum;
    if 1 >= least then 1 else least
  }

  /** `responses` answers a lineage request for a table id and depth. */
  method GetLineage(catalogue: map<Str, TableNames.Table>, fqn: Str, depth: int, maximum: int, d: Direction,
                    responses: (Str, int) -> Response) returns (nodes: seq<LineageNode>)
    ensures ByLevelAndName(nodes)
    ensures forall i :: 0 <= i < |nodes| ==> nodes[i].level >= 1 && (nodes[i].level == 1 || nodes[i].level <= depth)
    ensures forall i :: 0 <= i < |nodes| ==> nodes[i].level == 1 || nodes[i].level <= maximum
    ensures var table := TableNames.Resolved(catalogue, fqn);
      if table.None? || table.value.id.None? then nodes == []
      else
        var raw := responses(table.value.id.value, CappedDepth(depth, maximum));
        if raw.nodes.None? || (raw.edges.None? && raw.directionEdges.None?) then nodes == []
        else forall edges :: Counts(raw, edges) ==>
          exists ids, entries ::
            && Lists(raw.nodes.value, edges, table.value.id.value, d, CappedDepth(depth, maximum),
                     ids, entries)
            && multiset(nodes) == multiset(entries)
  {
    var table := TableNames.ResolveTable(catalogue, fqn);
    if table.None? || table.value.id.None? {
      return [];
    }
    var tableId := table.value.id.value;
    var capped := CappedDepth(depth, maximum);
    nodes := ParseLineageNodes(responses(tableId, capped), tableId, d, capped);
  }

  datatype Consumer = Consumer(entityFqn: Str, level: nat)

  datatype BlastRadius = BlastRadius(consumers: seq<Consumer>, totalAffected: nat)

  predicate ConsumerLeq(a: Consumer, b: Consumer) {
    NodeLeq(LineageNode(a.entityFqn, a.level), LineageNode(b.entityFqn, b.level))
  }

  function CalculateBlastRadius(nodes: seq<LineageNode>): BlastRadius {
    var radius := Sort(ConsumerLeq, ToConsumers(nodes));
    BlastRadius(radius, |radius|)
  }

  function ToConsumers(nodes: seq<LineageNode>): seq<Consumer> {
    seq(|nodes|, i requires 0 <= i < |nodes| => Consumer(nodes[i].fqn, nodes[i].level))
  }

  /** On the nodes the lineage call returns, the second sort moves nothing and the count is theirs. */
  lemma BlastRadiusKeepsOrder(nodes: seq<LineageNode>)
    requires ByLevelAndName(nodes)
    ensures var radius := CalculateBlastRadius(nodes);
      && radius.totalAffected == |radius.consumers| == |nodes|
      && forall i :: 0 <= i < |nodes| ==> radius.consumers[i] == Consumer(nodes[i].fqn, nodes[i].level)
  {
    SortOfSorted(ConsumerLeq, ToConsumers(nodes));
  }
}
