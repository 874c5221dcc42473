// The graph half of kxg/misc/map.py: weighted nodes that can be switched
// off, edges between them, a graph indexing its nodes by insertion order
// and keeping one edge per (start, end) pair, and a row-major grid of
// tiles.

module MapGraph {
  import opened Wrappers

  /** The index of a node no graph has taken yet. */
  const UnsetIndex: int := -1

  datatype GraphError =
    | IndexAlreadySet             // `set_index` on a node with an index: AssertionError
    | WeightIsZero                // `get_weight` on a zero weight: AssertionError
    | AlreadyInGraph(position: nat) // `add_node` on a node already present: KeyError
    | NotInGraph                  // `nodes.index(node)` on an absent node: ValueError
    | NoSuchIndex                 // a list index out of range: IndexError
    | NoEdge                      // a missing key in the edge dicts: KeyError

  /** Python's `s[i]` on a list of length `n`: negative indices count from
    * the end; anything else out of range has no slot. */
  function ListSlot(i: int, n: nat): (r: Option<nat>)
    ensures r.Some? <==> -(n as int) <= i < n
    ensures r.Some? ==> r.value < n && (r.value == i || r.value == i + n)
  {
    if 0 <= i < n then Some(i)
    else if -(n as int) <= i < 0 then Some(i + n)
    else None
  }

  class Node {
    var index: int
    var weight: real
    var active: bool

    /** A new node has no index yet and is active. */
    constructor(weight: real)
      ensures index == UnsetIndex && this.weight == weight && active
    {
      index := UnsetIndex;
      this.weight := weight;
      active := true;
    }

    /** `get_weight` asserts that the weight is not zero. */
    function GetWeight(): (r: Result<real, GraphError>)
      reads this
      ensures r.Ok? <==> weight != 0.0
      ensures r.Ok? ==> r.value == weight
      ensures r.Err? ==> r.error == WeightIsZero
    {
      if weight == 0.0 then Err(WeightIsZero) else Ok(weight)
    }

    /** `set_index` succeeds only while the index is still unset. */
    method SetIndex(index: int) returns (r: Outcome<GraphError>)
      modifies this
      ensures r.Pass? <==> old(this.index) == UnsetIndex
      ensures r.Fail? ==> r.error == IndexAlreadySet
      ensures this.index == (if r.Pass? then index else old(this.index))
      ensures weight == old(weight) && active == old(active)
    {
      if this.index != UnsetIndex {
        return Fail(IndexAlreadySet);
      }
      this.index := index;
      r := Pass;
    }

    method SetWeight(weight: real)
      modifies this
      ensures this.weight == weight && index == old(index) && active == old(active)
    {
      this.weight := weight;
    }

    method Activate()
      modifies this
      ensures active && index == old(index) && weight == old(weight)
    {
      active := true;
    }

    method Deactivate()
      modifies this
      ensures !active && index == old(index) && weight == old(weight)
    {
      active := false;
    }
  }

  class Edge {
    var start: Node
    var end: Node
    var distance: real

    /** `Edge(start, end, distance=1)`. */
    constructor(start: Node, end: Node, distance: real := 1.0)
      ensures this.start == start && this.end == end && this.distance == distance
    {
      this.start := start;
      this.end := end;
      this.distance := distance;
    }

    /** An edge can be crossed only while both of its endpoints are active. */
    predicate IsActive()
      reads this, start, end
      ensures IsActive() <==> start.active && end.active
    {
      start.active && end.active
    }

    /** `get_cost`: the product of both weights and the distance; it fails
      * with the weight assertion when either weight is zero. */
    function Cost(): (r: Result<real, GraphError>)
      reads this, start, end
      ensures r.Ok? <==> start.weight != 0.0 && end.weight != 0.0
      ensures r.Ok? ==> r.value == start.weight * end.weight * distance
      ensures r.Err? ==> r.error == WeightIsZero
    {
      match start.GetWeight()
      case Err(e) => Err(e)
      case Ok(ws) =>
        match end.GetWeight()
        case Err(e) => Err(e)
        case Ok(we) => Ok(ws * we * distance)
    }

    method SetNodes(start: Node, end: Node)
      modifies this
      ensures this.start == start && this.end == end && distance == old(distance)
    {
      this.start := start;
      this.end := end;
    }

    method SetStart(start: Node)
      modifies this
      ensures this.start == start && end == old(end) && distance == old(distance)
    {
      this.start := start;
    }

    method SetEnd(end: Node)
      modifies this
      ensures this.end == end && start == old(start) && distance == old(distance)
    {
      this.end := end;
    }

    method SetDistance(distance: real)
      modifies this
      ensures this.distance == distance && start == old(start) && end == old(end)
    {
      this.distance := distance;
    }
  }

  /** `list.index`: the first position of an item. */
  function IndexOf<T(==)>(s: seq<T>, x: T): (i: nat)
    requires x in s
    ensures i < |s| && s[i] == x && x !in s[..i]
  {
    if s[0] == x then 0
    else
      assert s == [s[0]] + s[1..];
      1 + IndexOf(s[1..], x)
  }

  class Graph {
    var nodes: seq<Node>
    var edges: map<Node, map<Node, Edge>>

    /** Every node's index is its position in the graph, so no node is
      * listed twice. */
    predicate Valid()
      reads this, nodes
    {
      forall i :: 0 <= i < |nodes| ==> nodes[i].index == i
    }

    constructor()
      ensures nodes == [] && edges == map[] && Valid()
    {
      nodes := [];
      edges := map[];
    }

    /** `add_node`: a node already present is refused with its position; a
      * node indexed by another graph trips `set_index`'s assertion;
      * otherwise the node gets the next index and is appended. */
    method AddNode(node: Node) returns (r: Result<nat, GraphError>)
      modifies this, node
      ensures edges == old(edges)
      ensures node in old(nodes) ==>
        r == Err(AlreadyInGraph(IndexOf(old(nodes), node))) && nodes == old(nodes) && node.index == old(node.index)
      ensures node !in old(nodes) && old(node.index) != UnsetIndex ==>
        r == Err(IndexAlreadySet) && nodes == old(nodes) && node.index == old(node.index)
      ensures node !in old(nodes) && old(node.index) == UnsetIndex ==>
        && r == Ok(old(|nodes|))
        && nodes == old(nodes) + [node]
        && node.index == r.value
        && GetNode(r.value) == Ok(node)
      ensures node.weight == old(node.weight) && node.active == old(node.active)
      ensures old(Valid()) ==> Valid()
    {
      if node in nodes {
        return Err(AlreadyInGraph(IndexOf(nodes, node)));
      }
      var index := |nodes|;
      var indexed := node.SetIndex(index);
      if indexed.Fail? {
        return Err(indexed.error);
      }
      nodes := nodes + [node];
      r := Ok(index);
    }

    /** `add_edge`: the first edge stored for a (start, end) pair stays;
      * later ones are ignored. */
    method AddEdge(edge: Edge)
      modifies this
      ensures nodes == old(nodes)
      ensures edge.start in edges && edge.end in edges[edge.start]
      ensures GetEdge(edge.start, edge.end) ==
        if old(GetEdge(edge.start, edge.end)).Ok? then old(GetEdge(edge.start, edge.end)) else Ok(edge)
      ensures var row: map<Node, Edge> := if edge.start in old(edges) then old(edges)[edge.start] else map[];
              edges == old(edges)[edge.start := if edge.end in row then row else row[edge.end := edge]]
    {
      var start := edge.start;
      var end := edge.end;
      if start !in edges {
        edges := edges[start := map[]];
      }
      if end !in edges[start] {
        edges := edges[start := edges[start][end := edge]];
      }
    }

    /** `get_node`: a list index into the nodes. */
    function GetNode(index: int): (r: Result<Node, GraphError>)
      reads this
      ensures r.Ok? <==> -|nodes| <= index < |nodes|
      ensures r.Ok? ==> r.value in nodes
      ensures 0 <= index < |nodes| ==> r == Ok(nodes[index])
    {
      match ListSlot(index, |nodes|)
      case None => Err(NoSuchIndex)
      case Some(i) => Ok(nodes[i])
    }

    /** `get_index`: the position of a node. */
    function GetIndex(node: Node): (r: Result<nat, GraphError>)
      reads this
      ensures r.Ok? <==> node in nodes
      ensures r.Ok? ==> r.value < |nodes| && nodes[r.value] == node
    {
      if node in nodes then Ok(IndexOf(nodes, node)) else Err(NotInGraph)
    }

    /** `get_num_nodes`: the count of indices `get_node` accepts from 0. */
    function GetNumNodes(): (n: nat)
      reads this
      ensures forall i :: 0 <= i < n ==> GetNode(i).Ok?
      ensures GetNode(n).Err?
    {
      |nodes|
    }

    /** `index_exists` only checks the upper bound, so a negative index
      * "exists" too; either way it names a node. */
    predicate IndexExists(index: int)
      reads this
      ensures IndexExists(index) && -|nodes| <= index ==> GetNode(index).Ok?
      ensures IndexExists(index) <==> index < GetNumNodes()
    {
      index < |nodes|
    }

    /** `get_edge`: the edge stored for a pair. */
    function GetEdge(start: Node, end: Node): (r: Result<Edge, GraphError>)
      reads this
      ensures r.Ok? <==> start in edges && end in edges[start]
    {
      if start in edges && end in edges[start] then Ok(edges[start][end]) else Err(NoEdge)
    }

    /** `get_edges_from`: the edges stored under a start node. */
    function GetEdgesFrom(node: Node): (r: Result<set<Edge>, GraphError>)
      reads this
      ensures r.Ok? <==> node in edges
      ensures r.Ok? ==> forall e :: e in edges[node] ==> GetEdge(node, e).Ok? && GetEdge(node, e).value in r.value
      ensures r.Ok? ==> forall x :: x in r.value ==> exists e :: e in edges[node] && GetEdge(node, e) == Ok(x)
    {
      if node in edges then Ok(set e | e in edges[node] :: edges[node][e]) else Err(NoEdge)
    }

    /** In a valid graph, a node's own index finds it and is its position. */
    lemma IndexRoundTrip(node: Node)
      requires Valid() && node in nodes
      ensures GetIndex(node) == Ok(node.index) && GetNode(node.index) == Ok(node)
    {
      var i := IndexOf(nodes, node);
      assert nodes[i].index == i;
    }
  }

  /** `[None] * rows * columns` has `rows * columns` slots when both are
    * positive and none otherwise. */
  function TileCount(rows: int, columns: int): (n: nat)
    ensures n == 0 <==> rows <= 0 || columns <= 0
  {
    if rows > 0 && columns > 0 then rows * columns else 0
  }

  /** Row-major layout: every (row, column) inside the grid has its own slot
    * inside the tile list. */
  lemma RowMajor(rows: int, columns: int, r1: int, c1: int, r2: int, c2: int)
    requires 0 <= r1 < rows && 0 <= c1 < columns
    requires 0 <= r2 < rows && 0 <= c2 < columns
    ensures 0 <= r1 * columns + c1 < TileCount(rows, columns)
    ensures r1 * columns + c1 == r2 * columns + c2 ==> r1 == r2 && c1 == c2
  {
    assert (r1 + 1) * columns <= rows * columns by {
      MultiplyLeq(r1 + 1, rows, columns);
    }
    if r1 < r2 {
      MultiplyLeq(r1 + 1, r2, columns);
    } else if r2 < r1 {
      MultiplyLeq(r2 + 1, r1, columns);
    }
  }

  lemma MultiplyLeq(a: int, b: int, c: int)
    requires a <= b && c >= 0
    ensures a * c <= b * c
  {
  }

  class Grid {
    const rows: int
    const columns: int
    const tiles: array<Option<Node>>

    /** A grid of empty tiles. */
    constructor(rows: int, columns: int)
      ensures this.rows == rows && this.columns == columns && fresh(tiles)
      ensures tiles.Length == TileCount(rows, columns)
      ensures forall i :: 0 <= i < tiles.Length ==> tiles[i] == None
    {
      this.rows := rows;
      this.columns := columns;
      tiles := new Option<Node>[TileCount(rows, columns)](_ => None);
    }

    /** The list index of a cell: `row * columns + column`. */
    function Slot(row: int, column: int): int {
      row * columns + column
    }

    /** `grid[row, column]`. */
    function Get(row: int, column: int): (r: Result<Option<Node>, GraphError>)
      reads tiles
      ensures r.Ok? <==> ListSlot(Slot(row, column), tiles.Length).Some?
    {
      match ListSlot(Slot(row, column), tiles.Length)
      case None => Err(NoSuchIndex)
      case Some(k) => Ok(tiles[k])
    }

    /** `grid[row, column] = node`: that cell reads back the node and every
      * other cell of the grid keeps its tile. */
    method Set(row: int, column: int, node: Option<Node>) returns (r: Outcome<GraphError>)
      modifies tiles
      requires tiles.Length == TileCount(rows, columns)
      ensures r.Pass? <==> ListSlot(Slot(row, column), tiles.Length).Some?
      ensures r.Fail? ==> tiles[..] == old(tiles[..])
      ensures r.Pass? ==> Get(row, column) == Ok(node)
      ensures r.Pass? ==> tiles[..] == old(tiles[..])[ListSlot(Slot(row, column), tiles.Length).value := node]
      ensures 0 <= row < rows && 0 <= column < columns ==>
        forall r', c' :: 0 <= r' < rows && 0 <= c' < columns && (r' != row || c' != column) ==>
          Get(r', c') == old(Get(r', c'))
    {
      match ListSlot(Slot(row, column), tiles.Length)
      case None =>
        return Fail(NoSuchIndex);
      case Some(k) =>
        tiles[k] := node;
        r := Pass;
        forall r', c' | 0 <= r' < rows && 0 <= c' < columns && (r' != row || c' != column)
                        && 0 <= row < rows && 0 <= column < columns
          ensures Get(r', c') == old(Get(r', c'))
        {
          RowMajor(rows, columns, r', c', row, column);
          RowMajor(rows, columns, row, column, r', c');
        }
    }
  }
}
