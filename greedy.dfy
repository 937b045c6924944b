/** The greedy bridge optimiser: optimize_bridge_placement_greedy
    (bridge_manager.py:587-666) as specification functions. One round
    enumerates the legal pairs in the source's order, scores them and keeps
    the first pair with the highest score; the rounds repeat on the systems
    that are still unused. The method that runs it, with the source's
    loops, is `BridgeManager.OptimizeBridgePlacementGreedy`. */
module Greedy {
  import opened Wrappers
  import opened Spatial
  import opened RangeIndex
  import opened Evaluator

  /** The four scoring strategies (bridge_manager.py:634-645). */
  datatype Strategy = JumpSavings | Coverage | CrossConstellation | Balanced

  /** The `prioritize` argument: any string other than the first three
      names takes the `else` branch, the balanced score. */
  function StrategyOf(prioritize: string): Strategy {
    if prioritize == "jump_savings" then JumpSavings
    else if prioritize == "coverage" then Coverage
    else if prioritize == "cross_constellation" then CrossConstellation
    else Balanced
  }

  /** A score: a natural number, or infinity where the jump savings of a
      pair without a stargate route enter it. */
  datatype Score = Finite(n: nat) | Infinite

  /** Python's `score > best_score` between two scores, `inf` included
      (`inf > inf` is false). */
  predicate Beats(a: Score, b: Score) {
    match (a, b)
    case (Infinite, Finite(_)) => true
    case (Finite(x), Finite(y)) => x > y
    case _ => false
  }

  /** The score of a valid pair under a strategy. The balanced score
      `0.4 * js + 0.4 * ip + 0.2 * (10 if cross else 0)` is kept multiplied
      by 5, which orders pairs the same way in exact arithmetic. */
  function ScoreOf(strategy: Strategy, v: BridgeValue): Score
    requires v.Valid?
  {
    match strategy
    case JumpSavings =>
      if v.jumpSavings.None? then Infinite else Finite(v.jumpSavings.value)
    case Coverage =>
      Finite(v.improvedPaths)
    case CrossConstellation =>
      Finite(v.improvedPaths * (if v.crossConstellation then 2 else 1))
    case Balanced =>
      if v.jumpSavings.None? then Infinite
      else Finite(2 * v.jumpSavings.value + 2 * v.improvedPaths + (if v.crossConstellation then 10 else 0))
  }

  /** One placed bridge of the optimiser's result: both endpoints, the
      distance from the candidate list, the score and the evaluation. */
  datatype Placed = Placed(from: string, to: string, sqDist: nat, score: Score, value: BridgeValue)

  /** One comparison of bridge_manager.py:647-655: `p` replaces the best
      pair so far only when its score is strictly higher. */
  function Consider(best: Option<Placed>, p: Placed): Option<Placed> {
    if best.None? || Beats(p.score, best.value.score) then Some(p) else best
  }

  /** The comparisons of the pairs `ps` in order, starting from the best
      pair so far, `best`. */
  function FoldFrom(best: Option<Placed>, ps: seq<Placed>): Option<Placed> {
    if ps == [] then best
    else Consider(FoldFrom(best, ps[..|ps| - 1]), ps[|ps| - 1])
  }

  /** The best pair of an enumeration, compared in order. */
  function FoldBest(ps: seq<Placed>): Option<Placed> {
    FoldFrom(None, ps)
  }

  /** The scored pairs `(s1, c)` for the candidates `conns` of `s1`, in
      order (bridge_manager.py:623-645): a used partner is skipped, every
      other partner is evaluated (a failure aborts the optimiser) and kept
      when the evaluation is valid. */
  function PairsFor(g: Network, strategy: Strategy, used: set<string>, s1: string, conns: seq<Candidate>): Result<seq<Placed>, BridgeError> {
    if conns == [] then Ok([])
    else
      var prev :- PairsFor(g, strategy, used, s1, conns[..|conns| - 1]);
      var c := conns[|conns| - 1];
      if c.system in used then Ok(prev)
      else
        var v :- Evaluate(g, s1, c.system);
        if !v.Valid? then Ok(prev)
        else Ok(prev + [Placed(s1, c.system, c.sqDist, ScoreOf(strategy, v), v)])
  }

  // One more candidate, one lemma per branch: skipped when used or not
  // valid, appended with its score when valid, and a failed evaluation
  // aborts the round.

  lemma PairsForSkip(g: Network, strategy: Strategy, used: set<string>, s1: string, conns: seq<Candidate>, j: nat, qs: seq<Placed>)
    requires j < |conns| && PairsFor(g, strategy, used, s1, conns[..j]) == Ok(qs)
    requires conns[j].system in used
      || (Evaluate(g, s1, conns[j].system).Ok? && !Evaluate(g, s1, conns[j].system).value.Valid?)
    ensures PairsFor(g, strategy, used, s1, conns[..j + 1]) == Ok(qs)
  {
    assert conns[..j + 1][..j] == conns[..j];
  }

  lemma PairsForAbort(g: Network, strategy: Strategy, used: set<string>, s1: string, conns: seq<Candidate>, j: nat, qs: seq<Placed>)
    requires j < |conns| && PairsFor(g, strategy, used, s1, conns[..j]) == Ok(qs)
    requires conns[j].system !in used && Evaluate(g, s1, conns[j].system).Err?
    ensures PairsFor(g, strategy, used, s1, conns) == Err(Evaluate(g, s1, conns[j].system).error)
  {
    assert conns[..j + 1][..j] == conns[..j];
    PairsForErrExtends(g, strategy, used, s1, conns, j + 1);
  }

  lemma PairsForKeep(g: Network, strategy: Strategy, used: set<string>, s1: string, conns: seq<Candidate>, j: nat, qs: seq<Placed>)
    requires j < |conns| && PairsFor(g, strategy, used, s1, conns[..j]) == Ok(qs)
    requires conns[j].system !in used && Evaluate(g, s1, conns[j].system).Ok?
    requires Evaluate(g, s1, conns[j].system).value.Valid?
    ensures var v := Evaluate(g, s1, conns[j].system).value;
      PairsFor(g, strategy, used, s1, conns[..j + 1]) == Ok(qs + [Placed(s1, conns[j].system, conns[j].sqDist, ScoreOf(strategy, v), v)])
  {
    assert conns[..j + 1][..j] == conns[..j];
  }

  lemma FoldFromSnoc(best: Option<Placed>, ps: seq<Placed>, p: Placed)
    ensures FoldFrom(best, ps + [p]) == Consider(FoldFrom(best, ps), p)
  {
    assert (ps + [p])[..|ps|] == ps;
  }

  /** Folding an enumeration in two parts: the second part starts from the
      best pair of the first. */
  lemma {:induction false} FoldBestConcat(ps: seq<Placed>, qs: seq<Placed>)
    ensures FoldBest(ps + qs) == FoldFrom(FoldBest(ps), qs)
  {
    if qs == [] {
      assert ps + qs == ps;
    } else {
      var init, q := qs[..|qs| - 1], qs[|qs| - 1];
      FoldBestConcat(ps, init);
      assert ps + qs == (ps + init) + [q];
      FoldFromSnoc(None, ps + init, q);
    }
  }

  /** A kept pair both extends the scored pairs and takes part in the
      running comparison. */
  lemma PairsForFold(g: Network, strategy: Strategy, used: set<string>, s1: string, conns: seq<Candidate>, j: nat, qs: seq<Placed>, best: Option<Placed>)
    requires j < |conns| && PairsFor(g, strategy, used, s1, conns[..j]) == Ok(qs)
    requires conns[j].system !in used && Evaluate(g, s1, conns[j].system).Ok?
    requires Evaluate(g, s1, conns[j].system).value.Valid?
    ensures var v := Evaluate(g, s1, conns[j].system).value;
      var p := Placed(s1, conns[j].system, conns[j].sqDist, ScoreOf(strategy, v), v);
      && PairsFor(g, strategy, used, s1, conns[..j + 1]) == Ok(qs + [p])
      && FoldFrom(best, qs + [p]) == Consider(FoldFrom(best, qs), p)
  {
    var v := Evaluate(g, s1, conns[j].system).value;
    var p := Placed(s1, conns[j].system, conns[j].sqDist, ScoreOf(strategy, v), v);
    PairsForKeep(g, strategy, used, s1, conns, j, qs);
    FoldFromSnoc(best, qs, p);
  }

  /** The scored pairs of one round whose first endpoint is in `systems`,
      in the order the source enumerates them (bridge_manager.py:616-623):
      used systems are skipped, and the candidates of every other system are
      asked for with the used systems excluded. */
  function RoundPairs(g: Network, strategy: Strategy, used: set<string>, systems: seq<string>): Result<seq<Placed>, BridgeError> {
    if systems == [] then Ok([])
    else
      var prev :- RoundPairs(g, strategy, used, systems[..|systems| - 1]);
      var s1 := systems[|systems| - 1];
      if s1 in used then Ok(prev)
      else
        var conns :- ValidConnections(g, s1, used);
        var ps :- PairsFor(g, strategy, used, s1, conns);
        Ok(prev + ps)
  }

  /** The first failing evaluation aborts the round with its error. */
  lemma {:induction false} PairsForErrExtends(g: Network, strategy: Strategy, used: set<string>, s1: string, conns: seq<Candidate>, k: nat)
    requires k <= |conns|
    requires PairsFor(g, strategy, used, s1, conns[..k]).Err?
    ensures PairsFor(g, strategy, used, s1, conns) == PairsFor(g, strategy, used, s1, conns[..k])
    decreases |conns| - k
  {
    if k < |conns| {
      var init := conns[..|conns| - 1];
      assert init[..k] == conns[..k];
      PairsForErrExtends(g, strategy, used, s1, init, k);
    } else {
      assert conns[..k] == conns;
    }
  }

  lemma {:induction false} RoundPairsErrExtends(g: Network, strategy: Strategy, used: set<string>, systems: seq<string>, k: nat)
    requires k <= |systems|
    requires RoundPairs(g, strategy, used, systems[..k]).Err?
    ensures RoundPairs(g, strategy, used, systems) == RoundPairs(g, strategy, used, systems[..k])
    decreases |systems| - k
  {
    if k < |systems| {
      var init := systems[..|systems| - 1];
      assert init[..k] == systems[..k];
      RoundPairsErrExtends(g, strategy, used, init, k);
    } else {
      assert systems[..k] == systems;
    }
  }

  /** One more system of the enumeration: skipped when used; otherwise its
      candidate list and its pairs are appended, and a failure in either
      aborts the round. */
  lemma RoundPairsStep(g: Network, strategy: Strategy, used: set<string>, systems: seq<string>, i: nat, ps: seq<Placed>)
    requires i < |systems| && RoundPairs(g, strategy, used, systems[..i]) == Ok(ps)
    ensures systems[i] in used ==> RoundPairs(g, strategy, used, systems[..i + 1]) == Ok(ps)
    ensures systems[i] !in used && ValidConnections(g, systems[i], used).Err? ==>
      RoundPairs(g, strategy, used, systems) == Err(ValidConnections(g, systems[i], used).error)
    ensures systems[i] !in used && ValidConnections(g, systems[i], used).Ok? ==>
      var conns := ValidConnections(g, systems[i], used).value;
      match PairsFor(g, strategy, used, systems[i], conns)
      case Err(e) => RoundPairs(g, strategy, used, systems) == Err(e)
      case Ok(qs) => RoundPairs(g, strategy, used, systems[..i + 1]) == Ok(ps + qs)
  {
    assert systems[..i + 1][..i] == systems[..i];
    if systems[i] !in used && RoundPairs(g, strategy, used, systems[..i + 1]).Err? {
      RoundPairsErrExtends(g, strategy, used, systems, i + 1);
    }
  }

  /** One round of the optimiser: the best pair among the unused systems. */
  function BestRound(g: Network, strategy: Strategy, used: set<string>): Result<Option<Placed>, BridgeError> {
    var ps :- RoundPairs(g, strategy, used, g.nodes);
    Ok(FoldBest(ps))
  }

  /** At most `rounds` rounds, starting from the systems `used`: each round
      places its best pair and marks both endpoints used; a round without a
      pair ends the run (bridge_manager.py:657-664). */
  function GreedyRun(g: Network, strategy: Strategy, used: set<string>, rounds: nat): Result<seq<Placed>, BridgeError>
    decreases rounds
  {
    if rounds == 0 then Ok([])
    else
      var best :- BestRound(g, strategy, used);
      match best
      case None => Ok([])
      case Some(p) =>
        var rest :- GreedyRun(g, strategy, used + {p.from, p.to}, rounds - 1);
        Ok([p] + rest)
  }

  /** The optimiser's run: `range(max_bridges)` rounds from no used system. */
  function OptimizeGreedy(g: Network, maxBridges: int, prioritize: string): Result<seq<Placed>, BridgeError> {
    GreedyRun(g, StrategyOf(prioritize), {}, if maxBridges < 0 then 0 else maxBridges)
  }

  // ---------------------------------------------------------------------
  // What one round chooses.

  lemma ScoreOrder(a: Score, b: Score, c: Score)
    ensures !Beats(a, a)
    ensures Beats(a, b) ==> !Beats(b, a)
    ensures Beats(a, b) && !Beats(c, b) ==> Beats(a, c)
    ensures !Beats(a, b) && !Beats(b, c) ==> !Beats(a, c)
  {
  }

  /** `ps[k]` has the highest score of `ps` and beats every pair before it. */
  predicate FirstBest(ps: seq<Placed>, k: int) {
    && 0 <= k < |ps|
    && (forall i :: 0 <= i < k ==> Beats(ps[k].score, ps[i].score))
    && (forall i :: 0 <= i < |ps| ==> !Beats(ps[i].score, ps[k].score))
  }

  /** A new pair that beats the best so far becomes the first best. */
  lemma FirstBestTakesLast(init: seq<Placed>, x: Placed, k: int)
    requires FirstBest(init, k) && Beats(x.score, init[k].score)
    ensures FirstBest(init + [x], |init|)
  {
    var ps := init + [x];
    forall i | 0 <= i < |init|
      ensures Beats(x.score, ps[i].score) && !Beats(ps[i].score, x.score)
    {
      assert ps[i] == init[i];
      ScoreOrder(x.score, init[k].score, init[i].score);
      ScoreOrder(init[i].score, init[k].score, x.score);
    }
    ScoreOrder(x.score, x.score, x.score);
    assert ps[|init|] == x;
  }

  /** A new pair that does not beat the best so far leaves it first best. */
  lemma FirstBestKeeps(init: seq<Placed>, x: Placed, k: int)
    requires FirstBest(init, k) && !Beats(x.score, init[k].score)
    ensures FirstBest(init + [x], k)
  {
    var ps := init + [x];
    forall i | 0 <= i < |ps| ensures ps[i] == if i < |init| then init[i] else x {
    }
  }

  /** The strict comparison keeps the first pair with the highest score:
      the result is some pair of the enumeration, no pair beats it, and it
      beats every pair enumerated before it. There is no result exactly
      when there is no pair. */
  lemma {:induction false} FoldBestChoice(ps: seq<Placed>)
    ensures FoldBest(ps).None? <==> ps == []
    ensures FoldBest(ps).Some? ==> exists k :: FirstBest(ps, k) && ps[k] == FoldBest(ps).value
  {
    if ps != [] {
      var init, x := ps[..|ps| - 1], ps[|ps| - 1];
      assert ps == init + [x];
      FoldBestChoice(init);
      var best := FoldBest(init);
      if best.None? {
        assert init == [];
        ScoreOrder(x.score, x.score, x.score);
        assert FirstBest(ps, 0);
      } else {
        var k :| FirstBest(init, k) && init[k] == best.value;
        if Beats(x.score, best.value.score) {
          FirstBestTakesLast(init, x, k);
          assert ps[|init|] == x;
        } else {
          FirstBestKeeps(init, x, k);
          assert ps[k] == init[k];
        }
      }
    }
  }

  /** A pair that may be bridged from the unused systems: two distinct
      unused nodes whose distance is known and within range. */
  predicate Bridgeable(g: Network, used: set<string>, from: string, to: string) {
    && from in g.nodes && to in g.nodes && from != to
    && from !in used && to !in used
    && Distance(g, from, to).Ok? && WithinRange(Distance(g, from, to).value)
  }

  /** A placed record carries the evaluation of its pair and that
      evaluation's score. */
  predicate Scored(g: Network, strategy: Strategy, p: Placed) {
    && Evaluate(g, p.from, p.to) == Ok(p.value)
    && p.value.Valid?
    && p.score == ScoreOf(strategy, p.value)
  }

  lemma {:induction false} PairsForSound(g: Network, strategy: Strategy, used: set<string>, s1: string, conns: seq<Candidate>)
    requires PairsFor(g, strategy, used, s1, conns).Ok?
    ensures forall p :: p in PairsFor(g, strategy, used, s1, conns).value ==>
      p.from == s1 && Candidate(p.to, p.sqDist) in conns && p.to !in used && Scored(g, strategy, p)
  {
    if conns != [] {
      var init := conns[..|conns| - 1];
      PairsForSound(g, strategy, used, s1, init);
      assert forall c :: c in init ==> c in conns;
    }
  }

  lemma {:induction false} PairsForComplete(g: Network, strategy: Strategy, used: set<string>, s1: string, conns: seq<Candidate>, c: Candidate)
    requires PairsFor(g, strategy, used, s1, conns).Ok?
    requires c in conns && c.system !in used
    requires Evaluate(g, s1, c.system).Ok? && Evaluate(g, s1, c.system).value.Valid?
    ensures exists p :: p in PairsFor(g, strategy, used, s1, conns).value && p.from == s1 && p.to == c.system
  {
    var init, last := conns[..|conns| - 1], conns[|conns| - 1];
    assert conns == init + [last];
    if c == last {
      var v := Evaluate(g, s1, c.system).value;
      var p := Placed(s1, c.system, c.sqDist, ScoreOf(strategy, v), v);
      assert p in PairsFor(g, strategy, used, s1, conns).value;
    } else {
      assert c in init;
      PairsForComplete(g, strategy, used, s1, init, c);
    }
  }

  /** Every pair a round enumerates is legal and carries its evaluation. */
  lemma {:induction false} RoundPairsSound(g: Network, strategy: Strategy, used: set<string>, systems: seq<string>)
    requires RoundPairs(g, strategy, used, systems).Ok?
    ensures forall p :: p in RoundPairs(g, strategy, used, systems).value ==>
      p.from in systems && Scored(g, strategy, p)
      && p.to in g.nodes && p.from != p.to && p.from !in used && p.to !in used
      && Distance(g, p.from, p.to) == Ok(p.sqDist) && WithinRange(p.sqDist)
  {
    if systems != [] {
      var init, s1 := systems[..|systems| - 1], systems[|systems| - 1];
      RoundPairsSound(g, strategy, used, init);
      if s1 !in used {
        var conns := ValidConnections(g, s1, used).value;
        ValidConnectionsCorrect(g, s1, used);
        PairsForSound(g, strategy, used, s1, conns);
      }
    }
  }

  /** A successful enumeration is that of all systems but the last,
      followed by the last system's pairs (none when it is used). */
  lemma RoundPairsLast(g: Network, strategy: Strategy, used: set<string>, systems: seq<string>)
    returns (prev: seq<Placed>, qs: seq<Placed>)
    requires systems != [] && RoundPairs(g, strategy, used, systems).Ok?
    ensures RoundPairs(g, strategy, used, systems[..|systems| - 1]) == Ok(prev)
    ensures RoundPairs(g, strategy, used, systems) == Ok(prev + qs)
    ensures systems[|systems| - 1] in used ==> qs == []
    ensures systems[|systems| - 1] !in used ==>
      && ValidConnections(g, systems[|systems| - 1], used).Ok?
      && PairsFor(g, strategy, used, systems[|systems| - 1], ValidConnections(g, systems[|systems| - 1], used).value) == Ok(qs)
  {
    var last := systems[|systems| - 1];
    prev := RoundPairs(g, strategy, used, systems[..|systems| - 1]).value;
    if last in used {
      qs := [];
      assert prev + qs == prev;
    } else {
      qs := PairsFor(g, strategy, used, last, ValidConnections(g, last, used).value).value;
    }
  }

  /** The pairs of one system include every legal partner. */
  lemma SystemPairsComplete(g: Network, strategy: Strategy, used: set<string>, s1: string, s2: string)
    requires Bridgeable(g, used, s1, s2) && ValidConnections(g, s1, used).Ok?
    requires PairsFor(g, strategy, used, s1, ValidConnections(g, s1, used).value).Ok?
    ensures exists q ::
      q in PairsFor(g, strategy, used, s1, ValidConnections(g, s1, used).value).value && q.from == s1 && q.to == s2
  {
    var conns := ValidConnections(g, s1, used).value;
    ValidConnectionsCorrect(g, s1, used);
    var c := Candidate(s2, Distance(g, s1, s2).value);
    assert c in conns;
    PairsForComplete(g, strategy, used, s1, conns, c);
  }

  /** Every legal pair whose first endpoint is in `systems` is enumerated. */
  lemma {:induction false} RoundPairsComplete(g: Network, strategy: Strategy, used: set<string>, systems: seq<string>, s1: string, s2: string)
    requires RoundPairs(g, strategy, used, systems).Ok?
    requires s1 in systems && Bridgeable(g, used, s1, s2)
    ensures exists p :: p in RoundPairs(g, strategy, used, systems).value && p.from == s1 && p.to == s2
  {
    var init, last := systems[..|systems| - 1], systems[|systems| - 1];
    assert systems == init + [last];
    var prev, qs := RoundPairsLast(g, strategy, used, systems);
    if s1 == last {
      SystemPairsComplete(g, strategy, used, s1, s2);
      var q :| q in qs && q.from == s1 && q.to == s2;
      assert q in prev + qs;
    } else {
      assert s1 in init;
      RoundPairsComplete(g, strategy, used, init, s1, s2);
      var q :| q in prev && q.from == s1 && q.to == s2;
      assert q in prev + qs;
    }
  }

  /** The score of the pair `(a, b)` when it evaluates as a valid bridge. */
  function PairScore(g: Network, strategy: Strategy, a: string, b: string): Option<Score> {
    match Evaluate(g, a, b)
    case Ok(v) => if v.Valid? then Some(ScoreOf(strategy, v)) else None
    case Err(_) => None
  }

  lemma BridgeableScored(g: Network, strategy: Strategy, used: set<string>, a: string, b: string)
    requires Bridgeable(g, used, a, b)
    ensures Evaluate(g, a, b).Ok? && Evaluate(g, a, b).value.Valid?
    ensures PairScore(g, strategy, a, b) == Some(ScoreOf(strategy, Evaluate(g, a, b).value))
  {
  }

  /** What one round promises: it places nothing exactly when no legal pair
      is left among the unused systems; otherwise it places a legal pair,
      with its evaluation, that no legal pair outscores. */
  lemma BestRoundCorrect(g: Network, strategy: Strategy, used: set<string>)
    requires BestRound(g, strategy, used).Ok?
    ensures BestRound(g, strategy, used).value.None? <==>
      forall s1, s2 :: s1 in g.nodes && s2 in g.nodes ==> !Bridgeable(g, used, s1, s2)
    ensures match BestRound(g, strategy, used).value
      case None => true
      case Some(p) =>
        && Bridgeable(g, used, p.from, p.to) && Distance(g, p.from, p.to) == Ok(p.sqDist)
        && Scored(g, strategy, p)
        && forall s1, s2 :: Bridgeable(g, used, s1, s2) ==>
             PairScore(g, strategy, s1, s2).Some? && !Beats(PairScore(g, strategy, s1, s2).value, p.score)
  {
    var ps := RoundPairs(g, strategy, used, g.nodes).value;
    RoundPairsSound(g, strategy, used, g.nodes);
    FoldBestChoice(ps);
    if ps == [] {
      forall s1, s2 | s1 in g.nodes && s2 in g.nodes
        ensures !Bridgeable(g, used, s1, s2)
      {
        if Bridgeable(g, used, s1, s2) {
          RoundPairsComplete(g, strategy, used, g.nodes, s1, s2);
        }
      }
    } else {
      var p := ps[0];
      assert p.from in g.nodes && p.to in g.nodes && Bridgeable(g, used, p.from, p.to);
      var best := FoldBest(ps).value;
      forall s1, s2 | Bridgeable(g, used, s1, s2)
        ensures PairScore(g, strategy, s1, s2).Some? && !Beats(PairScore(g, strategy, s1, s2).value, best.score)
      {
        BridgeableScored(g, strategy, used, s1, s2);
        RoundPairsComplete(g, strategy, used, g.nodes, s1, s2);
        var q :| q in ps && q.from == s1 && q.to == s2;
      }
    }
  }

  // ---------------------------------------------------------------------
  // What the whole run promises.

  /** The systems the placed bridges join. */
  function Endpoints(bs: seq<Placed>): set<string> {
    if bs == [] then {} else {bs[0].from, bs[0].to} + Endpoints(bs[1..])
  }

  lemma EndpointsCons(p: Placed, bs: seq<Placed>)
    ensures Endpoints([p] + bs) == {p.from, p.to} + Endpoints(bs)
  {
    assert ([p] + bs)[1..] == bs;
  }

  /** No system is an endpoint of two placed bridges. */
  predicate Disjoint(bs: seq<Placed>) {
    forall i, j :: 0 <= i < j < |bs| ==>
      bs[j].from != bs[i].from && bs[j].from != bs[i].to && bs[j].to != bs[i].from && bs[j].to != bs[i].to
  }

  /** A placed bridge joins a legal pair at its true distance and carries
      its evaluation. */
  predicate Placeable(g: Network, strategy: Strategy, used: set<string>, p: Placed) {
    Bridgeable(g, used, p.from, p.to) && Distance(g, p.from, p.to) == Ok(p.sqDist) && Scored(g, strategy, p)
  }

  lemma {:induction false} EndpointsMembers(bs: seq<Placed>, e: string)
    ensures e in Endpoints(bs) <==> exists i :: 0 <= i < |bs| && (bs[i].from == e || bs[i].to == e)
  {
    if bs != [] {
      EndpointsMembers(bs[1..], e);
      if e in Endpoints(bs[1..]) {
        var i :| 0 <= i < |bs[1..]| && (bs[1..][i].from == e || bs[1..][i].to == e);
        assert bs[i + 1] == bs[1..][i];
      }
      if exists i :: 0 <= i < |bs| && (bs[i].from == e || bs[i].to == e) {
        var i :| 0 <= i < |bs| && (bs[i].from == e || bs[i].to == e);
        if i > 0 {
          assert bs[1..][i - 1] == bs[i];
        }
      }
    }
  }

  lemma DisjointCons(g: Network, strategy: Strategy, used: set<string>, p: Placed, rest: seq<Placed>)
    requires Placeable(g, strategy, used, p)
    requires Disjoint(rest)
    requires forall i :: 0 <= i < |rest| ==> Placeable(g, strategy, used + {p.from, p.to}, rest[i])
    ensures Disjoint([p] + rest)
    ensures forall i :: 0 <= i < |[p] + rest| ==> Placeable(g, strategy, used, ([p] + rest)[i])
  {
    var bs := [p] + rest;
    forall i | 0 <= i < |bs| ensures Placeable(g, strategy, used, bs[i]) {
      if i > 0 {
        assert bs[i] == rest[i - 1];
      }
    }
    forall i, j | 0 <= i < j < |bs|
      ensures bs[j].from != bs[i].from && bs[j].from != bs[i].to && bs[j].to != bs[i].from && bs[j].to != bs[i].to
    {
      assert bs[j] == rest[j - 1];
      if i > 0 {
        assert bs[i] == rest[i - 1];
      }
    }
  }

  /** The run places at most `rounds` bridges; every one joins two distinct
      nodes within range that were unused when the run began, at their true
      distance, with their evaluation; and no system is an endpoint of two
      of them. */
  lemma {:induction false} GreedyCorrect(g: Network, strategy: Strategy, used: set<string>, rounds: nat)
    requires GreedyRun(g, strategy, used, rounds).Ok?
    ensures |GreedyRun(g, strategy, used, rounds).value| <= rounds
    ensures Disjoint(GreedyRun(g, strategy, used, rounds).value)
    ensures forall i :: 0 <= i < |GreedyRun(g, strategy, used, rounds).value| ==>
      Placeable(g, strategy, used, GreedyRun(g, strategy, used, rounds).value[i])
    decreases rounds
  {
    if rounds > 0 {
      var best := BestRound(g, strategy, used).value;
      if best.Some? {
        var p := best.value;
        BestRoundCorrect(g, strategy, used);
        var used' := used + {p.from, p.to};
        GreedyCorrect(g, strategy, used', rounds - 1);
        var rest := GreedyRun(g, strategy, used', rounds - 1).value;
        assert GreedyRun(g, strategy, used, rounds).value == [p] + rest;
        DisjointCons(g, strategy, used, p, rest);
      }
    }
  }

  /** A run that placed something placed its first round's best pair and
      then ran on with that pair's endpoints marked used. */
  lemma GreedyRunStep(g: Network, strategy: Strategy, used: set<string>, rounds: nat) returns (p: Placed, rest: seq<Placed>)
    requires GreedyRun(g, strategy, used, rounds).Ok? && GreedyRun(g, strategy, used, rounds).value != []
    ensures rounds > 0 && BestRound(g, strategy, used) == Ok(Some(p))
    ensures GreedyRun(g, strategy, used + {p.from, p.to}, rounds - 1) == Ok(rest)
    ensures GreedyRun(g, strategy, used, rounds) == Ok([p] + rest)
  {
    p := BestRound(g, strategy, used).value.value;
    rest := GreedyRun(g, strategy, used + {p.from, p.to}, rounds - 1).value;
  }

  /** The systems used before round `i` of a run that began with `p`. */
  lemma PrefixEndpoints(used: set<string>, p: Placed, rest: seq<Placed>, i: nat)
    requires i <= |rest|
    ensures i == 0 ==> used + Endpoints(([p] + rest)[..i]) == used && ([p] + rest)[i] == p
    ensures i > 0 ==>
      used + Endpoints(([p] + rest)[..i]) == used + {p.from, p.to} + Endpoints(rest[..i - 1]) && ([p] + rest)[i] == rest[i - 1]
  {
    var bs := [p] + rest;
    if i == 0 {
      assert bs[..0] == [];
    } else {
      assert bs[..i] == [p] + rest[..i - 1];
      EndpointsCons(p, rest[..i - 1]);
    }
  }

  /** One round as a function of the systems already used. */
  function Picker(g: Network, strategy: Strategy): set<string> -> Result<Option<Placed>, BridgeError> {
    u => BestRound(g, strategy, u)
  }

  /** Each bridge of `bs` is what `pick` chooses from the systems the
      bridges before it left unused. */
  predicate Picks(pick: set<string> -> Result<Option<Placed>, BridgeError>, used: set<string>, bs: seq<Placed>)
    decreases |bs|
  {
    bs == [] || (pick(used) == Ok(Some(bs[0])) && Picks(pick, used + {bs[0].from, bs[0].to}, bs[1..]))
  }

  lemma {:induction false} PicksRounds(pick: set<string> -> Result<Option<Placed>, BridgeError>, used: set<string>, bs: seq<Placed>, i: nat)
    requires Picks(pick, used, bs) && i < |bs|
    ensures pick(used + Endpoints(bs[..i])) == Ok(Some(bs[i]))
    decreases i
  {
    var p, rest := bs[0], bs[1..];
    assert bs == [p] + rest;
    PrefixEndpoints(used, p, rest, i);
    if i > 0 {
      PicksRounds(pick, used + {p.from, p.to}, rest, i - 1);
    }
  }

  lemma {:induction false} GreedyPicks(g: Network, strategy: Strategy, used: set<string>, rounds: nat)
    requires GreedyRun(g, strategy, used, rounds).Ok?
    ensures Picks(Picker(g, strategy), used, GreedyRun(g, strategy, used, rounds).value)
    decreases rounds
  {
    var bs := GreedyRun(g, strategy, used, rounds).value;
    if bs != [] {
      var p, rest := GreedyRunStep(g, strategy, used, rounds);
      GreedyPicks(g, strategy, used + {p.from, p.to}, rounds - 1);
      assert bs[0] == p && bs[1..] == rest;
      assert Picker(g, strategy)(used) == Ok(Some(p));
    }
  }

  /** Round `i` of the run placed the best pair of the systems left unused
      by the rounds before it. */
  lemma GreedyRounds(g: Network, strategy: Strategy, used: set<string>, rounds: nat, i: nat)
    requires GreedyRun(g, strategy, used, rounds).Ok?
    requires i < |GreedyRun(g, strategy, used, rounds).value|
    ensures BestRound(g, strategy, used + Endpoints(GreedyRun(g, strategy, used, rounds).value[..i]))
      == Ok(Some(GreedyRun(g, strategy, used, rounds).value[i]))
  {
    var bs := GreedyRun(g, strategy, used, rounds).value;
    GreedyPicks(g, strategy, used, rounds);
    PicksRounds(Picker(g, strategy), used, bs, i);
    assert Picker(g, strategy)(used + Endpoints(bs[..i])) == BestRound(g, strategy, used + Endpoints(bs[..i]));
  }

  /** The run stops early only when nothing is left: fewer than `rounds`
      bridges means that no legal pair remains among the systems the run
      left unused. */
  lemma {:induction false} GreedyStopsWhenExhausted(g: Network, strategy: Strategy, used: set<string>, rounds: nat)
    requires GreedyRun(g, strategy, used, rounds).Ok?
    requires |GreedyRun(g, strategy, used, rounds).value| < rounds
    ensures forall s1, s2 :: s1 in g.nodes && s2 in g.nodes ==>
      !Bridgeable(g, used + Endpoints(GreedyRun(g, strategy, used, rounds).value), s1, s2)
    decreases rounds
  {
    var bs := GreedyRun(g, strategy, used, rounds).value;
    var best := BestRound(g, strategy, used).value;
    if best.None? {
      assert bs == [];
      assert used + Endpoints(bs) == used;
      BestRoundCorrect(g, strategy, used);
    } else {
      var p := best.value;
      var used' := used + {p.from, p.to};
      var rest := GreedyRun(g, strategy, used', rounds - 1).value;
      assert bs == [p] + rest;
      GreedyStopsWhenExhausted(g, strategy, used', rounds - 1);
      EndpointsCons(p, rest);
      assert used + Endpoints(bs) == used' + Endpoints(rest);
    }
  }
}
