/** Depth-bounded traversal of a lineage graph, and what its level map means. */
module Lineage {
  import opened PythonText
  import opened Wrappers

  /** An edge endpoint in a response: an entity reference, a bare id, or neither. */
  datatype Endpoint = Reference(id: Option<Str>) | Bare(name: Str) | Missing

  datatype Edge = Edge(fromEntity: Endpoint, toEntity: Endpoint)

  datatype Direction = Upstream | Downstream

  function EndpointId(e: Endpoint): Str {
    match e
    case Reference(Some(id)) => id
    case Reference(None) => []
    case Bare(name) => name
    case Missing => []
  }

  // ---------- Reference notions: links, walks, distance ----------

  /** One step of the traversal from `a` to `b`; an edge with a blank endpoint links nothing. */
  ghost predicate Linked(edges: seq<Edge>, d: Direction, a: Str, b: Str) {
    exists i :: 0 <= i < |edges| && Joins(edges[i], d, a, b)
  }

  /** The edge leads from `from` to `to`: two endpoints that give nonblank ids, as an entity reference or bare. */
  predicate LeadsTo(e: Edge, from: Str, to: Str) {
    && from != [] && e.fromEntity in {Bare(from), Reference(Some(from))}
    && to != [] && e.toEntity in {Bare(to), Reference(Some(to))}
  }

  predicate Joins(e: Edge, d: Direction, a: Str, b: Str) {
    if d.Upstream? then LeadsTo(e, b, a) else LeadsTo(e, a, b)
  }

  lemma LeadsToIds(e: Edge, from: Str, to: Str)
    ensures LeadsTo(e, from, to)
      <==> EndpointId(e.fromEntity) == from != [] && EndpointId(e.toEntity) == to != []
  {
  }

  ghost predicate IsWalk(edges: seq<Edge>, d: Direction, p: seq<Str>) {
    |p| > 0 && forall i :: 0 <= i < |p| - 1 ==> Linked(edges, d, p[i], p[i + 1])
  }

  ghost predicate Connects(p: seq<Str>, a: Str, b: Str, k: nat) {
    |p| == k + 1 && p[0] == a && p[k] == b
  }

  ghost predicate HasWalk(edges: seq<Edge>, d: Direction, a: Str, b: Str, k: nat) {
    exists p: seq<Str> :: IsWalk(edges, d, p) && Connects(p, a, b, k)
  }

  /** The shortest walk from `a` to `b` has `k` steps. */
  ghost predicate AtDistance(edges: seq<Edge>, d: Direction, a: Str, b: Str, k: nat) {
    HasWalk(edges, d, a, b, k) && forall j: nat :: j < k ==> !HasWalk(edges, d, a, b, j)
  }

  /** The levels hold exactly the nodes at distance 1 to `depth` from the root, each at its distance. */
  ghost predicate ExactLevels(edges: seq<Edge>, d: Direction, root: Str, depth: int, levels: map<Str, nat>) {
    forall n: Str, k: nat :: (n in levels && levels[n] == k) <==> (1 <= k <= depth && AtDistance(edges, d, root, n, k))
  }

  lemma EmptyWalk(edges: seq<Edge>, d: Direction, a: Str)
    ensures HasWalk(edges, d, a, a, 0)
  {
    var p := [a];
    assert IsWalk(edges, d, p) && Connects(p, a, a, 0);
  }

  lemma ExtendWalk(edges: seq<Edge>, d: Direction, a: Str, b: Str, c: Str, k: nat)
    requires HasWalk(edges, d, a, b, k) && Linked(edges, d, b, c)
    ensures HasWalk(edges, d, a, c, k + 1)
  {
    var p :| IsWalk(edges, d, p) && Connects(p, a, b, k);
    var q := p + [c];
    assert IsWalk(edges, d, q) && Connects(q, a, c, k + 1);
  }

  lemma LastStep(edges: seq<Edge>, d: Direction, a: Str, c: Str, k: nat) returns (b: Str)
    requires k > 0 && HasWalk(edges, d, a, c, k)
    ensures HasWalk(edges, d, a, b, k - 1) && Linked(edges, d, b, c)
  {
    var p :| IsWalk(edges, d, p) && Connects(p, a, c, k);
    b := p[k - 1];
    assert Linked(edges, d, p[k - 1], p[k - 1 + 1]);
    var q := p[..k];
    forall i | 0 <= i < |q| - 1 ensures Linked(edges, d, q[i], q[i + 1]) {
      assert Linked(edges, d, p[i], p[i + 1]);
    }
    assert IsWalk(edges, d, q) && Connects(q, a, b, k - 1);
  }

  // ---------- Adjacency ----------

  /** What one edge adds to the neighbours of `a`. */
  function Contribution(e: Edge, d: Direction, a: Str): seq<Str> {
    var up, down := EndpointId(e.fromEntity), EndpointId(e.toEntity);
    if up == [] || down == [] then []
    else if d.Upstream? && down == a then [up]
    else if d.Downstream? && up == a then [down]
    else []
  }

  /** The neighbours of `a` in edge order, with repetitions. */
  function Neighbors(edges: seq<Edge>, d: Direction, a: Str): seq<Str> {
    if edges == [] then []
    else Neighbors(edges[..|edges| - 1], d, a) + Contribution(edges[|edges| - 1], d, a)
  }

  lemma ContributionJoins(e: Edge, d: Direction, a: Str, b: Str)
    ensures b in Contribution(e, d, a) <==> Joins(e, d, a, b)
  {
    LeadsToIds(e, a, b);
    LeadsToIds(e, b, a);
  }

  lemma LinkedBy(front: seq<Edge>, last: Edge, d: Direction, a: Str, b: Str)
    ensures Linked(front + [last], d, a, b) <==> Linked(front, d, a, b) || Joins(last, d, a, b)
  {
    hide Joins;
    var edges := front + [last];
    assert edges[|front|] == last;
    if Linked(front, d, a, b) {
      var i :| 0 <= i < |front| && Joins(front[i], d, a, b);
      assert Joins(edges[i], d, a, b);
    }
  }

  lemma {:induction false} NeighborsAreLinked(edges: seq<Edge>, d: Direction, a: Str, b: Str)
    ensures b in Neighbors(edges, d, a) <==> Linked(edges, d, a, b)
  {
    if edges != [] {
      hide Joins, Contribution, Linked;
      var n := |edges| - 1;
      ContributionJoins(edges[n], d, a, b);
      NeighborsAreLinked(edges[..n], d, a, b);
      LinkedBy(edges[..n], edges[n], d, a, b);
      assert edges == edges[..n] + [edges[n]];
    }
  }

  function Get(graph: map<Str, seq<Str>>, a: Str): seq<Str> {
    if a in graph then graph[a] else []
  }

  ghost predicate Adjacency(graph: map<Str, seq<Str>>, edges: seq<Edge>, d: Direction) {
    forall a :: Get(graph, a) == Neighbors(edges, d, a)
  }

  lemma AddEdge(graph: map<Str, seq<Str>>, edges: seq<Edge>, i: nat, d: Direction, key: Str, val: Str)
    requires i < |edges| && Adjacency(graph, edges[..i], d) && key != [] && val != []
    requires key == EndpointId(if d.Upstream? then edges[i].toEntity else edges[i].fromEntity)
    requires val == EndpointId(if d.Upstream? then edges[i].fromEntity else edges[i].toEntity)
    ensures Adjacency(graph[key := Get(graph, key) + [val]], edges[..i + 1], d)
  {
    assert edges[..i + 1][..i] == edges[..i];
    var g := graph[key := Get(graph, key) + [val]];
    forall a ensures Get(g, a) == Neighbors(edges[..i + 1], d, a) {
      assert Neighbors(edges[..i + 1], d, a) == Neighbors(edges[..i], d, a) + Contribution(edges[i], d, a);
    }
  }

  lemma SkipEdge(graph: map<Str, seq<Str>>, edges: seq<Edge>, i: nat, d: Direction)
    requires i < |edges| && Adjacency(graph, edges[..i], d)
    requires EndpointId(edges[i].fromEntity) == [] || EndpointId(edges[i].toEntity) == []
    ensures Adjacency(graph, edges[..i + 1], d)
  {
    assert edges[..i + 1][..i] == edges[..i];
    forall a ensures Get(graph, a) == Neighbors(edges[..i + 1], d, a) {
      assert Neighbors(edges[..i + 1], d, a) == Neighbors(edges[..i], d, a) + Contribution(edges[i], d, a);
    }
  }

  /** Both adjacency lists are filled from the edges; the caller's direction picks one. */
  method BuildAdjacency(edges: seq<Edge>, d: Direction) returns (graph: map<Str, seq<Str>>)
    ensures forall a :: Get(graph, a) == Neighbors(edges, d, a)
    ensures forall a, b :: b in Get(graph, a) <==> Linked(edges, d, a, b)
  {
    var downstream: map<Str, seq<Str>>, upstream: map<Str, seq<Str>> := map[], map[];
    for i := 0 to |edges|
      invariant Adjacency(downstream, edges[..i], Downstream)
      invariant Adjacency(upstream, edges[..i], Upstream)
    {
      var up, down := EndpointId(edges[i].fromEntity), EndpointId(edges[i].toEntity);
      if up == [] || down == [] {
        SkipEdge(downstream, edges, i, Downstream);
        SkipEdge(upstream, edges, i, Upstream);
        continue;
      }
      AddEdge(downstream, edges, i, Downstream, up, down);
      AddEdge(upstream, edges, i, Upstream, down, up);
      downstream := downstream[up := Get(downstream, up) + [down]];
      upstream := upstream[down := Get(upstream, down) + [up]];
    }
    assert edges[..|edges|] == edges;
    graph := if d.Upstream? then upstream else downstream;
    forall a, b ensures b in Get(graph, a) <==> Linked(edges, d, a, b) {
      NeighborsAreLinked(edges, d, a, b);
    }
  }

  // ---------- The traversal ----------

  ghost function LevelOf(levels: map<Str, nat>, root: Str, n: Str): nat
    requires n == root || n in levels
  {
    if n == root then 0 else levels[n]
  }

  ghost predicate Visited(levels: map<Str, nat>, root: Str, n: Str) {
    n == root || n in levels
  }

  /** Every recorded level is the length of some walk. */
  ghost predicate Sound(edges: seq<Edge>, d: Direction, root: Str, levels: map<Str, nat>) {
    && root !in levels
    && forall n :: n in levels ==> levels[n] >= 1 && HasWalk(edges, d, root, n, levels[n])
  }

  /** The neighbours of `m` were recorded no deeper than one below it. */
  ghost predicate Expanded(edges: seq<Edge>, d: Direction, root: Str, levels: map<Str, nat>, m: Str)
    requires Visited(levels, root, m)
  {
    forall n :: Linked(edges, d, m, n)
      ==> Visited(levels, root, n) && LevelOf(levels, root, n) <= LevelOf(levels, root, m) + 1
  }

  datatype Entry = Entry(id: Str, level: nat)

  ghost predicate Waits(queue: seq<Entry>, m: Str) {
    exists i :: 0 <= i < |queue| && queue[i].id == m
  }

  /** Queue entries carry their recorded level, in nondecreasing order, spanning at most two levels
      counted from `low`, which no recorded level exceeds by more than one. */
  ghost predicate Ordered(levels: map<Str, nat>, root: Str, queue: seq<Entry>, low: nat) {
    && (forall i :: 0 <= i < |queue| ==>
          Visited(levels, root, queue[i].id) && queue[i].level == LevelOf(levels, root, queue[i].id)
          && low <= queue[i].level <= low + 1)
    && (forall i, j :: 0 <= i < j < |queue| ==> queue[i].level <= queue[j].level)
    && (forall n :: n in levels ==> levels[n] <= low + 1)
  }

  /** Whatever is recorded and within depth waits in the queue, is being expanded, or is expanded. */
  ghost predicate Covered(edges: seq<Edge>, d: Direction, root: Str, depth: int, levels: map<Str, nat>,
                          queue: seq<Entry>, current: Option<Str>) {
    forall m :: Visited(levels, root, m) && LevelOf(levels, root, m) < depth ==>
      Waits(queue, m) || current == Some(m) || Expanded(edges, d, root, levels, m)
  }

  /** All ids an edge mentions. */
  function Ids(edges: seq<Edge>): set<Str> {
    (set i | 0 <= i < |edges| :: EndpointId(edges[i].fromEntity)) +
    (set i | 0 <= i < |edges| :: EndpointId(edges[i].toEntity))
  }

  lemma LinkedIds(edges: seq<Edge>, d: Direction, a: Str, b: Str)
    requires Linked(edges, d, a, b)
    ensures a in Ids(edges) && b in Ids(edges)
  {
    var i :| 0 <= i < |edges| && Joins(edges[i], d, a, b);
    LeadsToIds(edges[i], a, b);
    LeadsToIds(edges[i], b, a);
    assert EndpointId(edges[i].fromEntity) in Ids(edges) && EndpointId(edges[i].toEntity) in Ids(edges);
  }

  lemma RecordKeepsExpanded(edges: seq<Edge>, d: Direction, root: Str, levels: map<Str, nat>, n: Str, k: nat, m: Str)
    requires Visited(levels, root, m) && Expanded(edges, d, root, levels, m) && !Visited(levels, root, n)
    ensures Expanded(edges, d, root, levels[n := k], m)
  {
  }

  /** The traversal's invariant while `current` is being expanded, or between two expansions. */
  ghost predicate Searching(edges: seq<Edge>, d: Direction, root: Str, depth: int, levels: map<Str, nat>,
                            order: seq<Str>, visited: set<Str>, queue: seq<Entry>, low: nat, current: Option<Str>)
  {
    && visited == levels.Keys + {root} && visited <= Ids(edges) + {root}
    && (forall n :: n in order <==> n in levels)
    && (forall i, j :: 0 <= i < j < |order| ==> order[i] != order[j])
    && (forall n :: n in levels ==> levels[n] <= depth)
    && Sound(edges, d, root, levels)
    && Ordered(levels, root, queue, low)
    && Covered(edges, d, root, depth, levels, queue, current)
    && (current.Some? ==> Visited(levels, root, current.value) && LevelOf(levels, root, current.value) == low < depth)
  }

  lemma Dequeue(edges: seq<Edge>, d: Direction, root: Str, depth: int, levels: map<Str, nat>,
                order: seq<Str>, visited: set<Str>, queue: seq<Entry>, low: nat)
    requires Searching(edges, d, root, depth, levels, order, visited, queue, low, None) && queue != []
    ensures var Entry(current, level) := queue[0];
      Searching(edges, d, root, depth, levels, order, visited, queue[1..], level,
                if level < depth then Some(current) else None)
  {
    var Entry(current, level) := queue[0];
    forall m | Waits(queue, m) ensures m == current || Waits(queue[1..], m) {
      var i :| 0 <= i < |queue| && queue[i].id == m;
      if i > 0 {
        assert queue[1..][i - 1].id == m;
      }
    }
  }

  lemma Record(edges: seq<Edge>, d: Direction, root: Str, depth: int, levels: map<Str, nat>,
               order: seq<Str>, visited: set<Str>, queue: seq<Entry>, level: nat, current: Str, n: Str)
    requires Searching(edges, d, root, depth, levels, order, visited, queue, level, Some(current))
    requires n !in visited && Linked(edges, d, current, n)
    ensures Searching(edges, d, root, depth, levels[n := level + 1], order + [n], visited + {n},
                      queue + [Entry(n, level + 1)], level, Some(current))
  {
    hide Sound, Ordered, Covered, Ids, Linked;
    LinkedIds(edges, d, current, n);
    DiscoveredSound(edges, d, root, levels, current, n);
    DiscoveredOrdered(levels, root, queue, level, n);
    DiscoveredCovered(edges, d, root, depth, levels, queue, current, n);
  }

  ghost predicate AllVisited(near: seq<Str>, i: nat, visited: set<Str>) {
    forall j :: 0 <= j < i && j < |near| ==> near[j] in visited
  }

  lemma OneMoreVisited(near: seq<Str>, i: nat, seen: set<Str>, visited: set<Str>)
    requires i < |near| && AllVisited(near, i, seen) && seen <= visited && near[i] in visited
    ensures AllVisited(near, i + 1, visited)
  {
  }

  lemma Finish(edges: seq<Edge>, d: Direction, root: Str, depth: int, levels: map<Str, nat>, order: seq<Str>,
               visited: set<Str>, queue: seq<Entry>, level: nat, current: Str, near: seq<Str>)
    requires Searching(edges, d, root, depth, levels, order, visited, queue, level, Some(current))
    requires near == Neighbors(edges, d, current) && AllVisited(near, |near|, visited)
    ensures Searching(edges, d, root, depth, levels, order, visited, queue, level, None)
    ensures visited <= Ids(edges) + {root}
  {
    forall n | Linked(edges, d, current, n)
      ensures Visited(levels, root, n) && LevelOf(levels, root, n) <= level + 1
    {
      NeighborsAreLinked(edges, d, current, n);
    }
    assert Expanded(edges, d, root, levels, current);
  }

  lemma Begin(edges: seq<Edge>, d: Direction, root: Str, depth: int)
    ensures Searching(edges, d, root, depth, map[], [], {root}, [Entry(root, 0)], 0, None)
  {
    var queue := [Entry(root, 0)];
    assert queue[0].id == root && Waits(queue, root);
  }

  lemma Complete(edges: seq<Edge>, d: Direction, root: Str, depth: int, levels: map<Str, nat>,
                 order: seq<Str>, visited: set<Str>, low: nat)
    requires Searching(edges, d, root, depth, levels, order, visited, [], low, None)
    ensures ExactLevels(edges, d, root, depth, levels)
    ensures root !in levels
    ensures forall n :: n in order <==> n in levels
    ensures forall i, j :: 0 <= i < j < |order| ==> order[i] != order[j]
  {
    LevelsAreExact(edges, d, root, depth, levels);
  }

  /** Breadth-first search. `order` lists the recorded nodes as the dict does, in discovery order. */
  method BuildLevels(root: Str, edges: seq<Edge>, d: Direction, depth: int)
    returns (levels: map<Str, nat>, order: seq<Str>)
    ensures ExactLevels(edges, d, root, depth, levels)
    ensures root !in levels
    ensures forall n :: n in order <==> n in levels
    ensures forall i, j :: 0 <= i < j < |order| ==> order[i] != order[j]
  {
    hide *;
    var graph := BuildAdjacency(edges, d);
    levels, order := map[], [];
    var visited := {root};
    var queue: seq<Entry> := [Entry(root, 0)];
    ghost var low: nat := 0;
    Begin(edges, d, root, depth);
    while queue != []
      invariant Searching(edges, d, root, depth, levels, order, visited, queue, low, None)
      decreases Ids(edges) + {root} - visited, |queue|
    {
      var Entry(current, level) := queue[0];
      Dequeue(edges, d, root, depth, levels, order, visited, queue, low);
      queue, low := queue[1..], level;
      if level >= depth {
        continue;
      }
      var near := Get(graph, current);
      NothingVisited(near, visited);
      ghost var seen, waiting := visited, |queue|;
      for i := 0 to |near|
        invariant Searching(edges, d, root, depth, levels, order, visited, queue, level, Some(current))
        invariant seen <= visited && (seen == visited ==> |queue| == waiting)
        invariant AllVisited(near, i, visited)
      {
        var neighbor := near[i];
        OneMoreVisited(near, i, visited, visited + {neighbor});
        if neighbor in visited {
          assert visited + {neighbor} == visited;
          continue;
        }
        NeighborsAreLinked(edges, d, current, neighbor);
        Record(edges, d, root, depth, levels, order, visited, queue, level, current, neighbor);
        visited := visited + {neighbor};
        levels := levels[neighbor := level + 1];
        order := order + [neighbor];
        queue := queue + [Entry(neighbor, level + 1)];
      }
      Finish(edges, d, root, depth, levels, order, visited, queue, level, current, near);
      FewerUnvisited(Ids(edges) + {root}, seen, visited);
    }
    Complete(edges, d, root, depth, levels, order, visited, low);
  }

  lemma NothingVisited(near: seq<Str>, visited: set<Str>)
    ensures AllVisited(near, 0, visited)
  {
  }

  lemma FewerUnvisited(all: set<Str>, seen: set<Str>, visited: set<Str>)
    requires seen <= visited <= all
    ensures seen == visited || all - visited < all - seen
  {
    if seen != visited {
      var found :| found in visited && found !in seen;
      assert found in all - seen && found !in all - visited;
    }
  }

  lemma DiscoveredSound(edges: seq<Edge>, d: Direction, root: Str, levels: map<Str, nat>, current: Str, n: Str)
    requires Sound(edges, d, root, levels) && !Visited(levels, root, n)
    requires Visited(levels, root, current) && Linked(edges, d, current, n)
    ensures Sound(edges, d, root, levels[n := LevelOf(levels, root, current) + 1])
  {
    hide HasWalk, Linked;
    EmptyWalk(edges, d, root);
    ExtendWalk(edges, d, root, current, n, LevelOf(levels, root, current));
  }

  lemma DiscoveredOrdered(levels: map<Str, nat>, root: Str, queue: seq<Entry>, level: nat, n: Str)
    requires !Visited(levels, root, n) && Ordered(levels, root, queue, level)
    ensures Ordered(levels[n := level + 1], root, queue + [Entry(n, level + 1)], level)
  {
  }

  lemma DiscoveredCovered(edges: seq<Edge>, d: Direction, root: Str, depth: int, levels: map<Str, nat>,
                          queue: seq<Entry>, current: Str, n: Str)
    requires !Visited(levels, root, n) && Visited(levels, root, current)
    requires Covered(edges, d, root, depth, levels, queue, Some(current))
    ensures var k := LevelOf(levels, root, current) + 1;
      Covered(edges, d, root, depth, levels[n := k], queue + [Entry(n, k)], Some(current))
  {
    var k := LevelOf(levels, root, current) + 1;
    var levels', queue' := levels[n := k], queue + [Entry(n, k)];
    forall m | Visited(levels', root, m) && LevelOf(levels', root, m) < depth
      ensures Waits(queue', m) || current == m || Expanded(edges, d, root, levels', m)
    {
      if m == n {
        assert queue'[|queue|].id == n;
      } else if Waits(queue, m) {
        var i :| 0 <= i < |queue| && queue[i].id == m;
        assert queue'[i].id == m;
      } else if m != current {
        RecordKeepsExpanded(edges, d, root, levels, n, k, m);
      }
    }
  }

  /** With nothing left waiting, no walk of at most `depth` steps was missed or overestimated. */
  lemma {:induction false} WalksAreRecorded(edges: seq<Edge>, d: Direction, root: Str, depth: int,
                                            levels: map<Str, nat>, n: Str, k: nat)
    requires Covered(edges, d, root, depth, levels, [], None) && Sound(edges, d, root, levels)
    requires k <= depth && HasWalk(edges, d, root, n, k)
    ensures Visited(levels, root, n) && LevelOf(levels, root, n) <= k
    decreases k
  {
    if k == 0 {
      var p :| IsWalk(edges, d, p) && Connects(p, root, n, 0);
    } else {
      var m := LastStep(edges, d, root, n, k);
      WalksAreRecorded(edges, d, root, depth, levels, m, k - 1);
      assert Expanded(edges, d, root, levels, m);
    }
  }

  lemma LevelsAreExact(edges: seq<Edge>, d: Direction, root: Str, depth: int, levels: map<Str, nat>)
    requires Sound(edges, d, root, levels) && Covered(edges, d, root, depth, levels, [], None)
    requires forall n :: n in levels ==> levels[n] <= depth
    ensures ExactLevels(edges, d, root, depth, levels)
  {
    EmptyWalk(edges, d, root);
    forall n: Str, k: nat
      ensures (n in levels && levels[n] == k) <==> (1 <= k <= depth && AtDistance(edges, d, root, n, k))
    {
      if n in levels && levels[n] == k {
        forall j: nat | j < k ensures !HasWalk(edges, d, root, n, j) {
          if HasWalk(edges, d, root, n, j) {
            WalksAreRecorded(edges, d, root, depth, levels, n, j);
          }
        }
      }
      if 1 <= k <= depth && AtDistance(edges, d, root, n, k) {
        WalksAreRecorded(edges, d, root, depth, levels, n, k);
        assert n != root;
        assert HasWalk(edges, d, root, n, levels[n]);
      }
    }
  }

  // ---------- Consequences ----------

  /** Only one level map is exact. */
  lemma ExactLevelsUnique(edges: seq<Edge>, d: Direction, root: Str, depth: int, l: map<Str, nat>, m: map<Str, nat>)
    requires ExactLevels(edges, d, root, depth, l) && ExactLevels(edges, d, root, depth, m)
    ensures l == m
  {
    hide ExactLevels, AtDistance;
    forall n ensures n in l <==> n in m
             ensures n in l && n in m ==> l[n] == m[n]
    {
      if n in l {
        ExactAt(edges, d, root, depth, l, n, l[n]);
        ExactAt(edges, d, root, depth, m, n, l[n]);
      }
      if n in m {
        ExactAt(edges, d, root, depth, l, n, m[n]);
        ExactAt(edges, d, root, depth, m, n, m[n]);
      }
    }
  }

  /** Reordering or repeating edges changes no level: only which links exist matters. */
  lemma LevelsIgnoreEdgeOrder(e: seq<Edge>, f: seq<Edge>, d: Direction, root: Str, depth: int,
                              l: map<Str, nat>, m: map<Str, nat>)
    requires forall x :: x in e <==> x in f
    requires ExactLevels(e, d, root, depth, l) && ExactLevels(f, d, root, depth, m)
    ensures l == m
  {
    hide ExactLevels;
    ExactForBoth(e, f, d, root, depth, m);
    ExactLevelsUnique(e, d, root, depth, l, m);
  }

  lemma ExactAt(edges: seq<Edge>, d: Direction, root: Str, depth: int, levels: map<Str, nat>, n: Str, k: nat)
    requires ExactLevels(edges, d, root, depth, levels)
    ensures (n in levels && levels[n] == k) <==> (1 <= k <= depth && AtDistance(edges, d, root, n, k))
  {
    hide AtDistance;
  }

  lemma ExactForBoth(e: seq<Edge>, f: seq<Edge>, d: Direction, root: Str, depth: int, m: map<Str, nat>)
    requires (forall x :: x in e <==> x in f) && ExactLevels(f, d, root, depth, m)
    ensures ExactLevels(e, d, root, depth, m)
  {
    hide AtDistance;
    forall n: Str, k: nat
      ensures (n in m && m[n] == k) <==> (1 <= k <= depth && AtDistance(e, d, root, n, k))
    {
      ExactAt(f, d, root, depth, m, n, k);
      SameDistance(e, f, d, root, n, k);
    }
  }

  lemma SameDistance(e: seq<Edge>, f: seq<Edge>, d: Direction, a: Str, b: Str, k: nat)
    requires forall x :: x in e <==> x in f
    ensures AtDistance(e, d, a, b, k) <==> AtDistance(f, d, a, b, k)
  {
    hide HasWalk;
    forall j: nat ensures HasWalk(e, d, a, b, j) <==> HasWalk(f, d, a, b, j) {
      if HasWalk(e, d, a, b, j) {
        WalkTransfers(e, f, d, a, b, j);
      }
      if HasWalk(f, d, a, b, j) {
        WalkTransfers(f, e, d, a, b, j);
      }
    }
  }

  lemma WalkTransfers(e: seq<Edge>, f: seq<Edge>, d: Direction, a: Str, b: Str, k: nat)
    requires (forall x :: x in e ==> x in f) && HasWalk(e, d, a, b, k)
    ensures HasWalk(f, d, a, b, k)
  {
    var p :| IsWalk(e, d, p) && Connects(p, a, b, k);
    forall i | 0 <= i < |p| - 1 ensures Linked(f, d, p[i], p[i + 1]) {
      assert Linked(e, d, p[i], p[i + 1]);
      var j :| 0 <= j < |e| && Joins(e[j], d, p[i], p[i + 1]);
      assert e[j] in f;
      var q :| 0 <= q < |f| && f[q] == e[j];
      assert Joins(f[q], d, p[i], p[i + 1]);
    }
    assert IsWalk(f, d, p);
  }

  /** A smaller depth cuts off the deeper levels and changes nothing else. */
  lemma DepthOnlyCutsOff(edges: seq<Edge>, d: Direction, root: Str, small: int, large: int,
                         l: map<Str, nat>, m: map<Str, nat>)
    requires small <= large
    requires ExactLevels(edges, d, root, small, l) && ExactLevels(edges, d, root, large, m)
    ensures l == map n | n in m && m[n] <= small :: m[n]
  {
    var cut := map n | n in m && m[n] <= small :: m[n];
    CutIsExact(edges, d, root, small, large, m, cut);
    ExactLevelsUnique(edges, d, root, small, l, cut);
  }

  lemma CutIsExact(edges: seq<Edge>, d: Direction, root: Str, small: int, large: int,
                   m: map<Str, nat>, cut: map<Str, nat>)
    requires small <= large && ExactLevels(edges, d, root, large, m)
    requires forall n :: n in cut <==> n in m && m[n] <= small
    requires forall n :: n in cut ==> cut[n] == m[n]
    ensures ExactLevels(edges, d, root, small, cut)
  {
    hide AtDistance;
    forall n: Str, k: nat
      ensures (n in cut && cut[n] == k) <==> (1 <= k <= small && AtDistance(edges, d, root, n, k))
    {
      ExactAt(edges, d, root, large, m, n, k);
    }
  }

  function Opposite(d: Direction): Direction {
    if d.Upstream? then Downstream else Upstream
  }

  lemma WalkReverses(edges: seq<Edge>, d: Direction, a: Str, b: Str, k: nat)
    requires HasWalk(edges, d, a, b, k)
    ensures HasWalk(edges, Opposite(d), b, a, k)
  {
    var p :| IsWalk(edges, d, p) && Connects(p, a, b, k);
    var q := seq(|p|, i requires 0 <= i < |p| => p[|p| - 1 - i]);
    forall i | 0 <= i < |q| - 1 ensures Linked(edges, Opposite(d), q[i], q[i + 1]) {
      var h := |p| - 2 - i;
      assert Linked(edges, d, p[h], p[h + 1]);
      var j :| 0 <= j < |edges| && Joins(edges[j], d, p[h], p[h + 1]);
      assert Joins(edges[j], Opposite(d), q[i], q[i + 1]);
    }
    assert IsWalk(edges, Opposite(d), q) && Connects(q, b, a, k);
  }

  lemma DistanceReverses(edges: seq<Edge>, d: Direction, a: Str, b: Str, k: nat)
    requires AtDistance(edges, d, a, b, k)
    ensures AtDistance(edges, Opposite(d), b, a, k)
  {
    WalkReverses(edges, d, a, b, k);
    forall j: nat | j < k ensures !HasWalk(edges, Opposite(d), b, a, j) {
      if HasWalk(edges, Opposite(d), b, a, j) {
        WalkReverses(edges, Opposite(d), b, a, j);
      }
    }
  }

  /** `n` is `k` levels downstream of `r` iff `r` is `k` levels upstream of `n`. */
  lemma UpstreamAndDownstreamAgree(edges: seq<Edge>, r: Str, n: Str, depth: int, k: nat,
                                   down: map<Str, nat>, up: map<Str, nat>)
    requires ExactLevels(edges, Downstream, r, depth, down) && ExactLevels(edges, Upstream, n, depth, up)
    ensures (n in down && down[n] == k) <==> (r in up && up[r] == k)
  {
    if AtDistance(edges, Downstream, r, n, k) {
      DistanceReverses(edges, Downstream, r, n, k);
    }
    if AtDistance(edges, Upstream, n, r, k) {
      DistanceReverses(edges, Upstream, n, r, k);
    }
  }
}
