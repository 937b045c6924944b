/** The Ansiblex bridge planner, `BridgeManager` (bridge_manager.py:18-666):
    the graph it plans over, the committed bridge list and the memo of
    candidate lists. Each method is proved against the specification
    function of its module: `Spatial` for distances, `RangeIndex` for the
    candidate lists, `BridgeSet` for the bridge list, `Evaluator` for pair
    values and `Greedy` for the optimiser. */
module BridgeManager {
  import opened Wrappers
  import opened Spatial
  import opened RangeIndex
  import opened Evaluator
  import opened Greedy
  import opened BridgeSet

  /** The memo key of get_valid_connections: the query system and the
      exclusion set as a value, so that two queries share an entry exactly
      when they ask the same question. */
  datatype CacheKey = CacheKey(system: string, exclude: set<string>)

  /** With the memo keyed by the question itself, a memo hit is the list
      its query asks for: it never lists the query system or an excluded
      system, every entry is within range, and it is sorted. */
  lemma MemoHitCorrect(g: Network, memo: map<CacheKey, seq<Candidate>>, system: string, exclude: set<string>)
    requires forall k :: k in memo ==> ValidConnections(g, k.system, k.exclude) == Ok(memo[k])
    requires CacheKey(system, exclude) in memo
    ensures SortedByDistance(memo[CacheKey(system, exclude)])
    ensures forall c :: c in memo[CacheKey(system, exclude)] ==>
      c.system != system && c.system !in exclude && c.system in g.nodes
      && Distance(g, system, c.system) == Ok(c.sqDist) && WithinRange(c.sqDist)
  {
    ValidConnectionsCorrect(g, system, exclude);
  }

  /** The outcome of a run whose first rounds placed `placed` and whose
      remaining rounds end in `rest`. */
  function After(placed: seq<Placed>, rest: Result<seq<Placed>, BridgeError>): Result<seq<Placed>, BridgeError> {
    match rest
    case Ok(bs) => Ok(placed + bs)
    case Err(e) => Err(e)
  }

  lemma AfterNothing(rest: Result<seq<Placed>, BridgeError>)
    ensures After([], rest) == rest
  {
    match rest
    case Ok(bs) => assert [] + bs == bs;
    case Err(_) =>
  }

  /** One more placed round moves a bridge from the rest of the run to the
      placed prefix. */
  lemma AfterRound(g: Network, strategy: Strategy, used: set<string>, n: nat, placed: seq<Placed>, p: Placed)
    requires n > 0 && BestRound(g, strategy, used) == Ok(Some(p))
    ensures After(placed, GreedyRun(g, strategy, used, n))
      == After(placed + [p], GreedyRun(g, strategy, used + {p.from, p.to}, n - 1))
  {
    match GreedyRun(g, strategy, used + {p.from, p.to}, n - 1)
    case Ok(rest) => assert placed + ([p] + rest) == (placed + [p]) + rest;
    case Err(_) =>
  }

  class BridgeManager {
    /** `self.graph`; None until a graph is set. */
    var graph: Option<Network>
    /** `self.bridges`, in the order the bridges were added. */
    var bridges: seq<Bridge>
    /** `self._valid_connections_cache`. */
    var cache: map<CacheKey, seq<Candidate>>

    /** Every memo entry is the candidate list its key asks for in the
        current graph; without a graph there are none. */
    predicate Valid()
      reads this
    {
      match graph
      case None => cache == map[]
      case Some(g) => forall k :: k in cache ==> ValidConnections(g, k.system, k.exclude) == Ok(cache[k])
    }

    /** `BridgeManager(graph)`: no bridges and an empty memo. */
    constructor(graph: Option<Network>)
      ensures Valid()
      ensures this.graph == graph && bridges == [] && cache == map[]
    {
      this.graph := graph;
      bridges := [];
      cache := map[];
    }

    /** set_graph: the new graph replaces the old one and the memo is
        emptied, so no entry computed on the old graph survives. */
    method SetGraph(graph: Option<Network>)
      modifies this`graph, this`cache
      ensures Valid()
      ensures this.graph == graph && cache == map[] && bridges == old(bridges)
    {
      this.graph := graph;
      cache := map[];
    }

    /** calculate_distance_ly: fails without a graph, otherwise the
        distance of `Spatial.Distance`. */
    method CalculateDistanceLy(a: string, b: string) returns (r: Result<nat, BridgeError>)
      ensures graph.None? ==> r == Err(GraphNotSet)
      ensures graph.Some? ==> r == Distance(graph.value, a, b)
    {
      if graph.None? {
        return Err(GraphNotSet);
      }
      r := Distance(graph.value, a, b);
    }

    /** can_bridge_connect: the verdict "within 5 LY" and the distance. */
    method CanBridgeConnect(a: string, b: string) returns (r: Result<(bool, nat), BridgeError>)
      ensures graph.None? ==> r == Err(GraphNotSet)
      ensures graph.Some? ==> r == Spatial.CanBridgeConnect(graph.value, a, b)
    {
      var d := CalculateDistanceLy(a, b);
      if d.Err? {
        return Err(d.error);
      }
      r := Ok((d.value <= MaxRangeSq, d.value));
    }

    /** The scan of get_valid_connections (bridge_manager.py:114-122): every
        node in order except the query system and the excluded ones, asked
        whether it is in range; the first failure aborts the scan. */
    method ScanNodes(system: string, exclude: set<string>) returns (r: Result<seq<Candidate>, BridgeError>)
      requires graph.Some?
      ensures r == Collect(graph.value, system, exclude, graph.value.nodes)
    {
      var g := graph.value;
      var found: seq<Candidate> := [];
      for i := 0 to |g.nodes|
        invariant Collect(g, system, exclude, g.nodes[..i]) == Ok(found)
      {
        var other := g.nodes[i];
        assert g.nodes[..i + 1][..i] == g.nodes[..i];
        if other == system || other in exclude {
          continue;
        }
        var verdict := CanBridgeConnect(system, other);
        if verdict.Err? {
          CollectErrExtends(g, system, exclude, g.nodes, i + 1);
          return Err(verdict.error);
        }
        if verdict.value.0 {
          found := found + [Candidate(other, verdict.value.1)];
        }
      }
      assert g.nodes[..|g.nodes|] == g.nodes;
      return Ok(found);
    }

    /** get_valid_connections: a memo hit answers from the memo; otherwise
        the nodes are scanned in order, the candidates sorted by distance
        and the list stored under its key. Either way the answer is the
        candidate list of the current graph. */
    method GetValidConnections(system: string, exclude: set<string>) returns (r: Result<seq<Candidate>, BridgeError>)
      requires Valid()
      modifies this`cache
      ensures Valid()
      ensures graph.None? ==> r == Err(GraphNotSet)
      ensures graph.Some? ==> r == ValidConnections(graph.value, system, exclude)
      ensures cache == if r.Ok? then old(cache)[CacheKey(system, exclude) := r.value] else old(cache)
    {
      var key := CacheKey(system, exclude);
      if key in cache {
        return Ok(cache[key]);
      }
      if graph.None? {
        return Err(GraphNotSet);
      }
      var found := ScanNodes(system, exclude);
      if found.Err? {
        return Err(found.error);
      }
      var sorted := SortByDistance(found.value);
      cache := cache[key := sorted];
      return Ok(sorted);
    }

    /** get_bridge_summary: the summary of the unexcluded candidate list. */
    method GetBridgeSummary(system: string) returns (r: Result<Summary, BridgeError>)
      requires Valid()
      modifies this`cache
      ensures Valid()
      ensures graph.None? ==> r == Err(GraphNotSet)
      ensures graph.Some? ==> r == BridgeSummary(graph.value, system)
    {
      var conns := GetValidConnections(system, {});
      if conns.Err? {
        return Err(conns.error);
      }
      r := Ok(SummaryOf(system, conns.value));
    }

    /** has_bridge: a scan for a record joining the pair. */
    method HasBridge(a: string, c: string) returns (found: bool)
      ensures found == Connected(bridges, a, c)
    {
      ConnectedMeans(bridges, a, c);
      for i := 0 to |bridges|
        invariant forall j :: 0 <= j < i ==> !Joins(bridges[j], a, c)
      {
        if Joins(bridges[i], a, c) {
          return true;
        }
      }
      return false;
    }

    /** get_used_systems: both endpoints of every record. */
    method GetUsedSystems() returns (used: set<string>)
      ensures used == UsedSystems(bridges)
    {
      used := {};
      for i := 0 to |bridges|
        invariant used == UsedSystems(bridges[..i])
      {
        assert bridges[..i + 1][..i] == bridges[..i];
        used := used + {bridges[i].from, bridges[i].to};
      }
      assert bridges[..|bridges|] == bridges;
    }

    /** add_bridge: the answer and the new list of `BridgeSet.AddBridge`;
        on a failure the list is unchanged. */
    method AddBridge(a: string, c: string, active: bool, validate: bool) returns (r: Result<AddResult, BridgeError>)
      requires Valid()
      modifies this`bridges
      ensures Valid()
      ensures match BridgeSet.AddBridge(graph, old(bridges), a, c, active, validate)
        case Err(e) => r == Err(e) && bridges == old(bridges)
        case Ok((result, bs)) => r == Ok(result) && bridges == bs
    {
      var known := HasBridge(a, c);
      if known {
        return Ok(AlreadyExists);
      }
      var used := GetUsedSystems();
      if a in used {
        return Ok(SystemInUse(a));
      }
      if c in used {
        return Ok(SystemInUse(c));
      }
      var d: nat;
      if validate {
        var verdict := CanBridgeConnect(a, c);
        if verdict.Err? {
          return Err(verdict.error);
        }
        if !verdict.value.0 {
          return Ok(TooFar(verdict.value.1));
        }
        d := verdict.value.1;
      } else {
        var dist := CalculateDistanceLy(a, c);
        if dist.Err? {
          return Err(dist.error);
        }
        d := dist.value;
      }
      bridges := bridges + [Bridge(a, c, d, active)];
      return Ok(Added);
    }

    /** remove_bridge: drops every record joining the pair, in either
        orientation, keeps the rest in order, and reports whether anything
        was dropped. */
    method RemoveBridge(a: string, c: string) returns (removed: bool)
      requires Valid()
      modifies this`bridges
      ensures Valid()
      ensures bridges == Without(old(bridges), a, c)
      ensures removed <==> Connected(old(bridges), a, c)
    {
      var initialCount := |bridges|;
      WithoutCorrect(bridges, a, c);
      bridges := Without(bridges, a, c);
      removed := |bridges| < initialCount;
    }

    /** clear_bridges. */
    method ClearBridges()
      requires Valid()
      modifies this`bridges
      ensures Valid()
      ensures bridges == []
    {
      bridges := [];
    }

    /** calculate_bridge_value, with the sampled path count of its nested
        loop. */
    method CalculateBridgeValue(a: string, b: string) returns (r: Result<BridgeValue, BridgeError>)
      ensures graph.None? ==> r == Err(GraphNotSet)
      ensures graph.Some? ==> r == Evaluate(graph.value, a, b)
    {
      if graph.None? {
        return Err(GraphNotSet);
      }
      var g := graph.value;
      var verdict := CanBridgeConnect(a, b);
      if verdict.Err? {
        return Err(verdict.error);
      }
      if !verdict.value.0 {
        return Ok(Invalid(verdict.value.1));
      }
      var current := Hops(g, a, b);
      var c1, c2 := g.info[a].constellation, g.info[b].constellation;
      var improved := CountImprovedPaths(g, a, b);
      return Ok(BridgeValue.Valid(verdict.value.1, current, Savings(current), c1 != c2, improved, c1, c2));
    }

    /** The inner loop of one round (bridge_manager.py:625-655): the
        candidates `conns` of `s1` that are still unused, evaluated in order
        and compared with the best pair so far, `best`. */
    method BestAmong(strategy: Strategy, used: set<string>, s1: string, conns: seq<Candidate>, best: Option<Placed>) returns (r: Result<Option<Placed>, BridgeError>)
      requires graph.Some?
      ensures PairsFor(graph.value, strategy, used, s1, conns).Ok? ==> r == Ok(FoldFrom(best, PairsFor(graph.value, strategy, used, s1, conns).value))
      ensures PairsFor(graph.value, strategy, used, s1, conns).Err? ==> r == Err(PairsFor(graph.value, strategy, used, s1, conns).error)
    {
      var g := graph.value;
      var current := best;
      ghost var qs: seq<Placed> := [];
      for j := 0 to |conns|
        invariant PairsFor(g, strategy, used, s1, conns[..j]) == Ok(qs)
        invariant current == FoldFrom(best, qs)
      {
        var c := conns[j];
        if c.system in used {
          PairsForSkip(g, strategy, used, s1, conns, j, qs);
          continue;
        }
        var v := CalculateBridgeValue(s1, c.system);
        if v.Err? {
          PairsForAbort(g, strategy, used, s1, conns, j, qs);
          return Err(v.error);
        }
        if !v.value.Valid? {
          PairsForSkip(g, strategy, used, s1, conns, j, qs);
          continue;
        }
        var p := Placed(s1, c.system, c.sqDist, ScoreOf(strategy, v.value), v.value);
        PairsForFold(g, strategy, used, s1, conns, j, qs, best);
        if current.None? || Beats(p.score, current.value.score) {
          current := Some(p);
        }
        qs := qs + [p];
      }
      assert conns[..|conns|] == conns;
      return Ok(current);
    }

    /** One round of optimize_bridge_placement_greedy
        (bridge_manager.py:612-655): every unused system in node order, its
        candidates among the unused systems, and the first pair with the
        strictly highest score. */
    method BestPlacement(strategy: Strategy, used: set<string>) returns (r: Result<Option<Placed>, BridgeError>)
      requires Valid() && graph.Some?
      modifies this`cache
      ensures Valid() && graph == old(graph)
      ensures r == BestRound(graph.value, strategy, used)
    {
      var g := graph.value;
      var best: Option<Placed> := None;
      ghost var ps: seq<Placed> := [];
      for i := 0 to |g.nodes|
        invariant Valid() && graph == Some(g)
        invariant RoundPairs(g, strategy, used, g.nodes[..i]) == Ok(ps)
        invariant best == FoldBest(ps)
      {
        var s1 := g.nodes[i];
        RoundPairsStep(g, strategy, used, g.nodes, i, ps);
        if s1 in used {
          continue;
        }
        var conns := GetValidConnections(s1, used);
        if conns.Err? {
          return Err(conns.error);
        }
        var res := BestAmong(strategy, used, s1, conns.value, best);
        if res.Err? {
          return Err(res.error);
        }
        FoldBestConcat(ps, PairsFor(g, strategy, used, s1, conns.value).value);
        best := res.value;
        ps := ps + PairsFor(g, strategy, used, s1, conns.value).value;
      }
      assert g.nodes[..|g.nodes|] == g.nodes;
      return Ok(best);
    }

    /** optimize_bridge_placement_greedy: up to `maxBridges` rounds, each
        placing the best pair of the systems still unused, stopping at the
        first round without a pair. The answer is the run `OptimizeGreedy`
        specifies. The committed bridge list plays no part. */
    method OptimizeBridgePlacementGreedy(maxBridges: int, prioritize: string) returns (r: Result<seq<Placed>, BridgeError>)
      requires Valid()
      modifies this`cache
      ensures Valid() && graph == old(graph) && bridges == old(bridges)
      ensures graph.None? ==> r == Err(GraphNotSet)
      ensures graph.Some? ==> r == OptimizeGreedy(graph.value, maxBridges, prioritize)
    {
      if graph.None? {
        return Err(GraphNotSet);
      }
      var g := graph.value;
      var strategy := StrategyOf(prioritize);
      var rounds := if maxBridges < 0 then 0 else maxBridges;
      var placed: seq<Placed> := [];
      var used: set<string> := {};
      AfterNothing(GreedyRun(g, strategy, used, rounds));
      for round := 0 to rounds
        invariant Valid() && graph == Some(g) && bridges == old(bridges)
        invariant After(placed, GreedyRun(g, strategy, used, rounds - round)) == GreedyRun(g, strategy, {}, rounds)
      {
        var best := BestPlacement(strategy, used);
        if best.Err? {
          return Err(best.error);
        }
        if best.value.None? {
          assert placed + [] == placed;
          return Ok(placed);
        }
        var p := best.value.value;
        AfterRound(g, strategy, used, rounds - round, placed, p);
        placed := placed + [p];
        used := used + {p.from, p.to};
      }
      assert placed + [] == placed;
      return Ok(placed);
    }
  }
}
