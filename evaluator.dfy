/** The bridge value evaluator: calculate_bridge_value
    (bridge_manager.py:506-585). The sampled count of improved paths is the
    nested loop of bridge_manager.py:546-574; it is a method here, proved
    against the function `ImprovedPaths`. */
module Evaluator {
  import opened Wrappers
  import opened Spatial

  /** The number of leading nodes the path sample takes (bridge_manager.py:546). */
  const SampleSize: nat := 20

  /** Python's `<` on `str`: lexicographic comparison by code point. */
  predicate StrLess(a: string, b: string)
    decreases |a|
  {
    if b == [] then false
    else if a == [] then true
    else if a[0] != b[0] then a[0] < b[0]
    else StrLess(a[1..], b[1..])
  }

  lemma {:induction false} StrLessIrreflexive(a: string)
    ensures !StrLess(a, a)
  {
    if a != [] {
      StrLessIrreflexive(a[1..]);
    }
  }

  lemma {:induction false} StrLessAsymmetric(a: string, b: string)
    ensures !(StrLess(a, b) && StrLess(b, a))
    decreases |a|
  {
    if a != [] && b != [] && a[0] == b[0] {
      StrLessAsymmetric(a[1..], b[1..]);
    }
  }

  function Min(x: nat, y: nat): nat {
    if x <= y then x else y
  }

  /** The first `SampleSize` nodes in enumeration order. */
  function Sample(g: Network): seq<string> {
    if |g.nodes| <= SampleSize then g.nodes else g.nodes[..SampleSize]
  }

  /** One pair of the sample improves when all five path lengths exist
      (a missing one is NetworkXNoPath, and the pair is skipped) and the
      better of the two routes over the bridge is strictly shorter than the
      current route. */
  predicate Improves(g: Network, s1: string, s2: string, a: string, b: string) {
    match (Hops(g, a, b), Hops(g, a, s1), Hops(g, b, s2), Hops(g, a, s2), Hops(g, b, s1))
    case (Some(current), Some(toS1), Some(fromS2), Some(toS2), Some(fromS1)) =>
      Min(toS1 + 1 + fromS2, toS2 + 1 + fromS1) < current
    case _ => false
  }

  /** A sample pair is counted only when `a < b` (bridge_manager.py:551). */
  predicate Counted(g: Network, s1: string, s2: string, a: string, b: string) {
    StrLess(a, b) && Improves(g, s1, s2, a, b)
  }

  /** The counted pairs with first system `a` and second system in `cols`. */
  function RowCount(g: Network, s1: string, s2: string, a: string, cols: seq<string>): nat {
    if cols == [] then 0
    else RowCount(g, s1, s2, a, cols[..|cols| - 1]) + (if Counted(g, s1, s2, a, cols[|cols| - 1]) then 1 else 0)
  }

  /** The counted pairs with first system in `rows` and second in `cols`. */
  function PairCount(g: Network, s1: string, s2: string, rows: seq<string>, cols: seq<string>): nat {
    if rows == [] then 0
    else PairCount(g, s1, s2, rows[..|rows| - 1], cols) + RowCount(g, s1, s2, rows[|rows| - 1], cols)
  }

  /** `improved_paths` of calculate_bridge_value. */
  function ImprovedPaths(g: Network, s1: string, s2: string): nat {
    PairCount(g, s1, s2, Sample(g), Sample(g))
  }

  lemma RowCountStep(g: Network, s1: string, s2: string, a: string, cols: seq<string>, j: nat)
    requires j < |cols|
    ensures RowCount(g, s1, s2, a, cols[..j + 1])
      == RowCount(g, s1, s2, a, cols[..j]) + (if Counted(g, s1, s2, a, cols[j]) then 1 else 0)
  {
    assert cols[..j + 1][..j] == cols[..j];
  }

  lemma PairCountStep(g: Network, s1: string, s2: string, rows: seq<string>, cols: seq<string>, i: nat)
    requires i < |rows|
    ensures PairCount(g, s1, s2, rows[..i + 1], cols)
      == PairCount(g, s1, s2, rows[..i], cols) + RowCount(g, s1, s2, rows[i], cols)
  {
    assert rows[..i + 1][..i] == rows[..i];
  }

  /** The inner loop of bridge_manager.py:549-574: the pairs `(a, b)` for
      every `b` of the sample. */
  method CountRow(g: Network, s1: string, s2: string, a: string, sample: seq<string>) returns (count: nat)
    ensures count == RowCount(g, s1, s2, a, sample)
  {
    count := 0;
    for j := 0 to |sample|
      invariant count == RowCount(g, s1, s2, a, sample[..j])
    {
      var b := sample[j];
      RowCountStep(g, s1, s2, a, sample, j);
      if !StrLess(a, b) {
        continue;
      }
      var current, toS1, fromS2 := Hops(g, a, b), Hops(g, a, s1), Hops(g, b, s2);
      var toS2, fromS1 := Hops(g, a, s2), Hops(g, b, s1);
      if current.None? || toS1.None? || fromS2.None? || toS2.None? || fromS1.None? {
        continue;
      }
      var viaBridge := toS1.value + 1 + fromS2.value;
      var viaBridgeReversed := toS2.value + 1 + fromS1.value;
      var best := if viaBridge <= viaBridgeReversed then viaBridge else viaBridgeReversed;
      if best < current.value {
        count := count + 1;
      }
    }
    assert sample[..|sample|] == sample;
  }

  /** The loop of bridge_manager.py:546-574. */
  method CountImprovedPaths(g: Network, s1: string, s2: string) returns (count: nat)
    ensures count == ImprovedPaths(g, s1, s2)
  {
    var sample := if |g.nodes| <= SampleSize then g.nodes else g.nodes[..SampleSize];
    count := 0;
    for i := 0 to |sample|
      invariant count == PairCount(g, s1, s2, sample[..i], sample)
    {
      PairCountStep(g, s1, s2, sample, sample, i);
      var row := CountRow(g, s1, s2, sample[i], sample);
      count := count + row;
    }
    assert sample[..|sample|] == sample;
  }

  // The bound on improved_paths: at most one of (a, b) and (b, a) is
  // counted, so n samples give at most n * (n - 1) / 2 counted pairs.

  /** n * (n - 1) / 2, written as a sum. */
  function Pairs(n: nat): nat {
    if n == 0 then 0 else Pairs(n - 1) + (n - 1)
  }

  function LessRow(a: string, cols: seq<string>): nat {
    if cols == [] then 0
    else LessRow(a, cols[..|cols| - 1]) + (if StrLess(a, cols[|cols| - 1]) then 1 else 0)
  }

  function LessCount(rows: seq<string>, cols: seq<string>): nat {
    if rows == [] then 0
    else LessCount(rows[..|rows| - 1], cols) + LessRow(rows[|rows| - 1], cols)
  }

  /** The number of systems in `rows` below `x`. */
  function Below(rows: seq<string>, x: string): nat {
    if rows == [] then 0
    else Below(rows[..|rows| - 1], x) + (if StrLess(rows[|rows| - 1], x) then 1 else 0)
  }

  lemma {:induction false} RowCountAtMostLessRow(g: Network, s1: string, s2: string, a: string, cols: seq<string>)
    ensures RowCount(g, s1, s2, a, cols) <= LessRow(a, cols)
  {
    if cols != [] {
      RowCountAtMostLessRow(g, s1, s2, a, cols[..|cols| - 1]);
    }
  }

  lemma {:induction false} PairCountAtMostLessCount(g: Network, s1: string, s2: string, rows: seq<string>, cols: seq<string>)
    ensures PairCount(g, s1, s2, rows, cols) <= LessCount(rows, cols)
  {
    if rows != [] {
      PairCountAtMostLessCount(g, s1, s2, rows[..|rows| - 1], cols);
      RowCountAtMostLessRow(g, s1, s2, rows[|rows| - 1], cols);
    }
  }

  lemma {:induction false} LessCountAddColumn(rows: seq<string>, cols: seq<string>, x: string)
    ensures LessCount(rows, cols + [x]) == LessCount(rows, cols) + Below(rows, x)
  {
    if rows != [] {
      LessCountAddColumn(rows[..|rows| - 1], cols, x);
      assert (cols + [x])[..|cols|] == cols;
    }
  }

  lemma {:induction false} BelowPlusAbove(rows: seq<string>, x: string)
    ensures Below(rows, x) + LessRow(x, rows) <= |rows|
  {
    if rows != [] {
      BelowPlusAbove(rows[..|rows| - 1], x);
      StrLessAsymmetric(rows[|rows| - 1], x);
    }
  }

  lemma {:induction false} LessCountSquare(s: seq<string>)
    ensures LessCount(s, s) <= Pairs(|s|)
  {
    if s != [] {
      var init, x := s[..|s| - 1], s[|s| - 1];
      assert s == init + [x];
      LessCountSquare(init);
      LessCountAddColumn(init, init, x);
      StrLessIrreflexive(x);
      assert LessRow(x, s) == LessRow(x, init);
      BelowPlusAbove(init, x);
    }
  }

  lemma {:induction false} PairsMonotonic(m: nat, n: nat)
    requires m <= n
    ensures Pairs(m) <= Pairs(n)
    decreases n
  {
    if m < n {
      PairsMonotonic(m, n - 1);
    }
  }

  /** At most 190 sample pairs improve: with 20 sampled nodes there are
      20 * 19 / 2 pairs with `a < b`. */
  lemma ImprovedPathsBound(g: Network, s1: string, s2: string)
    ensures ImprovedPaths(g, s1, s2) <= Pairs(|Sample(g)|) <= 190
  {
    var sample := Sample(g);
    PairCountAtMostLessCount(g, s1, s2, sample, sample);
    LessCountSquare(sample);
    PairsMonotonic(|sample|, SampleSize);
    PairsClosedForm(SampleSize);
  }

  lemma {:induction false} PairsClosedForm(n: nat)
    ensures 2 * Pairs(n) == n * (n - 1)
  {
    if n > 0 {
      PairsClosedForm(n - 1);
      assert (n - 1) * (n - 2) + 2 * (n - 1) == n * (n - 1);
    }
  }

  /** The result record of calculate_bridge_value (bridge_manager.py:524-528
      and 576-585). `currentJumps` is None where the source stores
      `float('inf')`; `jumpSavings` is None where `max(0, inf - 1)` is
      infinite. The distance is the squared metre distance. */
  datatype BridgeValue =
    | Invalid(sqDist: nat)
    | Valid(
        sqDist: nat,
        currentJumps: Option<nat>,
        jumpSavings: Option<nat>,
        crossConstellation: bool,
        improvedPaths: nat,
        fromConstellation: string,
        toConstellation: string)

  /** `max(0, current_jumps - 1)`, infinite when the current route is. */
  function Savings(currentJumps: Option<nat>): Option<nat> {
    match currentJumps
    case None => None
    case Some(j) => Some(if j >= 1 then j - 1 else 0)
  }

  /** calculate_bridge_value, given the graph. */
  function Evaluate(g: Network, s1: string, s2: string): Result<BridgeValue, BridgeError> {
    var verdict :- CanBridgeConnect(g, s1, s2);
    if !verdict.0 then Ok(Invalid(verdict.1))
    else
      var current := Hops(g, s1, s2);
      Ok(Valid(
        verdict.1,
        current,
        Savings(current),
        Constellation(g, s1) != Constellation(g, s2),
        ImprovedPaths(g, s1, s2),
        Constellation(g, s1),
        Constellation(g, s2)))
  }

  /** What calculate_bridge_value promises: it fails exactly when the
      distance cannot be computed; a pair out of range is Invalid with its
      distance and nothing more; a pair in range is Valid with its distance,
      saves `max(0, jumps - 1)` jumps (never a negative number, and infinitely
      many when no stargate route exists), is cross-constellation exactly
      when the constellations differ and improves at most 190 sample pairs. */
  lemma EvaluateCorrect(g: Network, s1: string, s2: string)
    ensures Evaluate(g, s1, s2).Ok? <==> Distance(g, s1, s2).Ok?
    ensures match Evaluate(g, s1, s2)
      case Err(_) => true
      case Ok(Invalid(d)) =>
        d == Distance(g, s1, s2).value && !WithinRange(d)
      case Ok(Valid(d, current, savings, cross, improved, c1, c2)) =>
        && d == Distance(g, s1, s2).value && WithinRange(d)
        && current == Hops(g, s1, s2)
        && (savings.None? <==> current.None?)
        && (savings.Some? ==> savings.value == if current.value >= 1 then current.value - 1 else 0)
        && c1 == g.info[s1].constellation && c2 == g.info[s2].constellation
        && (cross <==> c1 != c2)
        && improved == ImprovedPaths(g, s1, s2) && improved <= 190
  {
    ImprovedPathsBound(g, s1, s2);
  }

  /** The worked example: a pair 3.2 LY apart with a four-jump stargate
      route saves three jumps. */
  lemma EvaluateExample(g: Network, s1: string, s2: string)
    requires Distance(g, s1, s2) == Ok(Square(32 * MetersPerLy / 10))
    requires Hops(g, s1, s2) == Some(4)
    ensures Evaluate(g, s1, s2).Ok? && Evaluate(g, s1, s2).value.Valid?
    ensures Evaluate(g, s1, s2).value.jumpSavings == Some(3)
  {
  }
}
