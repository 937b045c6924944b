/** The spatial model and the stargate graph that the bridge planner reads
    (bridge_manager.py `BridgeManager.graph`).

    Coordinates are integers in metres and distances are kept SQUARED, so
    that the range test and the distance order need no square root: the
    source's `sqrt(dx^2 + dy^2 + dz^2) / METERS_PER_LY <= 5.0` holds exactly
    when the squared distance is at most `(5 * METERS_PER_LY)^2`
    (lemma `RangeTestMatchesDistance`).

    Shortest stargate paths, which the source asks networkx for, are an
    oracle: the table `hops`, where a missing pair means "no path". */
module Spatial {
  import opened Wrappers

  /** METERS_PER_LY (bridge_manager.py:22). */
  const MetersPerLy: nat := 9_461_000_000_000_000
  /** MAX_BRIDGE_RANGE_LY (bridge_manager.py:23). */
  const MaxBridgeRangeLy: nat := 5
  /** The maximum bridge range in metres, and its square. */
  const MaxRangeMeters: nat := MaxBridgeRangeLy * MetersPerLy
  const MaxRangeSq: nat := MaxRangeMeters * MaxRangeMeters

  datatype Coords = Coords(x: int, y: int, z: int)

  /** The node attributes the planner reads: the position (absent when the
      graph was built without `x`, `y`, `z`) and the constellation. */
  datatype SystemInfo = SystemInfo(coords: Option<Coords>, constellation: string)

  /** An undirected stargate graph: the node enumeration order of the graph,
      the attributes of each node and the shortest-path oracle. */
  datatype Network = Network(
    nodes: seq<string>,
    info: map<string, SystemInfo>,
    hops: map<(string, string), nat>)

  /** The failures the bridge planner raises: `ValueError("Graph not set")`,
      a `KeyError` for a system that is not a node, and a `KeyError` for a
      node without coordinates. */
  datatype BridgeError = GraphNotSet | UnknownSystem(name: string) | MissingCoordinates(name: string)

  /** What every networkx graph satisfies: the nodes are enumerated once
      each, and the attribute map has exactly the nodes as keys. */
  predicate WellFormed(g: Network) {
    && (forall i, j :: 0 <= i < j < |g.nodes| ==> g.nodes[i] != g.nodes[j])
    && (forall s :: s in g.nodes ==> s in g.info)
    && (forall s :: s in g.info ==> s in g.nodes)
  }

  /** Every node carries its coordinates. */
  predicate Located(g: Network) {
    forall s :: s in g.info ==> g.info[s].coords.Some?
  }

  function Square(v: int): (r: nat)
    ensures r == v * v
  {
    if v < 0 then (-v) * (-v) else v * v
  }

  function SqDist(a: Coords, b: Coords): nat {
    Square(b.x - a.x) + Square(b.y - a.y) + Square(b.z - a.z)
  }

  /** calculate_distance_ly (bridge_manager.py:59-75): looks both systems up
      (a `KeyError` names the first unknown one), reads their coordinates
      (a `KeyError` names the first one without them) and yields the
      squared Euclidean distance in metres. */
  function Distance(g: Network, a: string, b: string): (r: Result<nat, BridgeError>)
    ensures r.Ok? <==> a in g.info && b in g.info && g.info[a].coords.Some? && g.info[b].coords.Some?
    ensures r.Err? ==> r.error != GraphNotSet
    ensures r.Ok? ==> r.value == SqDist(g.info[a].coords.value, g.info[b].coords.value)
  {
    if a !in g.info then Err(UnknownSystem(a))
    else if b !in g.info then Err(UnknownSystem(b))
    else if g.info[a].coords.None? then Err(MissingCoordinates(a))
    else if g.info[b].coords.None? then Err(MissingCoordinates(b))
    else Ok(SqDist(g.info[a].coords.value, g.info[b].coords.value))
  }

  predicate WithinRange(sqDist: nat) {
    sqDist <= MaxRangeSq
  }

  /** can_bridge_connect (bridge_manager.py:88-90): the distance together
      with the verdict "at most 5 LY". */
  function CanBridgeConnect(g: Network, a: string, b: string): (r: Result<(bool, nat), BridgeError>)
    ensures r.Ok? <==> Distance(g, a, b).Ok?
    ensures r.Ok? ==> r.value.1 == Distance(g, a, b).value
    ensures r.Ok? ==> (r.value.0 <==> r.value.1 <= MaxRangeSq)
  {
    var d :- Distance(g, a, b);
    Ok((WithinRange(d), d))
  }

  /** nx.shortest_path_length over the stargate graph; None is NetworkXNoPath. */
  function Hops(g: Network, a: string, b: string): Option<nat> {
    if (a, b) in g.hops then Some(g.hops[(a, b)]) else None
  }

  /** What the oracle satisfies when it is read off a real undirected
      graph: its pairs are pairs of nodes, a node is zero hops from itself,
      hop counts do not depend on direction, and only a node is zero hops
      from itself. */
  ghost predicate HopsWellFormed(g: Network) {
    && (forall a, b :: (a, b) in g.hops ==> a in g.info && b in g.info)
    && (forall a :: a in g.info ==> (a, a) in g.hops && g.hops[(a, a)] == 0)
    && (forall a, b :: (a, b) in g.hops ==> (b, a) in g.hops && g.hops[(b, a)] == g.hops[(a, b)])
    && (forall a, b :: (a, b) in g.hops && g.hops[(a, b)] == 0 ==> a == b)
  }

  /** On a well-formed oracle, `Hops` is a path length: zero exactly from
      a node to itself, symmetric, and undefined for a system that is not a
      node. */
  lemma HopsWellFormedMeans(g: Network, a: string, b: string)
    requires HopsWellFormed(g)
    ensures Hops(g, a, b) == Hops(g, b, a)
    ensures Hops(g, a, b) == Some(0) <==> a == b && a in g.info
    ensures a !in g.info ==> Hops(g, a, b).None?
  {
    if (b, a) in g.hops {
      assert (a, b) in g.hops;
    }
  }

  function Constellation(g: Network, s: string): string
    requires s in g.info
  {
    g.info[s].constellation
  }

  /** The distance between two systems does not depend on the order in
      which they are named, and neither does the bridge verdict. */
  lemma DistanceSymmetric(g: Network, a: string, b: string)
    ensures Distance(g, a, b).Ok? <==> Distance(g, b, a).Ok?
    ensures Distance(g, a, b).Ok? ==> Distance(g, a, b).value == Distance(g, b, a).value
    ensures CanBridgeConnect(g, a, b).Ok? ==> CanBridgeConnect(g, a, b).value == CanBridgeConnect(g, b, a).value
  {
    if Distance(g, a, b).Ok? {
      var ca, cb := g.info[a].coords.value, g.info[b].coords.value;
      assert Square(cb.x - ca.x) == Square(ca.x - cb.x);
      assert Square(cb.y - ca.y) == Square(ca.y - cb.y);
      assert Square(cb.z - ca.z) == Square(ca.z - cb.z);
    }
  }

  /** The squared test decides the same question as the source's test on
      the metre distance `m` (the square root of the squared distance):
      `m <= 5 LY` exactly when `m * m <= MaxRangeSq`. */
  lemma RangeTestMatchesDistance(m: real)
    requires m >= 0.0
    ensures m <= MaxRangeMeters as real <==> m * m <= MaxRangeSq as real
  {
    SquareMonotonic(m, MaxRangeMeters as real);
  }

  lemma SquareMonotonic(m: real, r: real)
    requires m >= 0.0 && r >= 0.0
    ensures m <= r <==> m * m <= r * r
  {
    var mm, mr, rr := m * m, m * r, r * r;
    if m <= r {
      assert mm <= mr <= rr;
    } else {
      assert mm > mr;
      assert mr >= rr;
    }
  }
}
