/** The range-candidate index: get_valid_connections and get_bridge_summary
    (bridge_manager.py:92-165), as functions of the graph. The memo cache
    that the source keeps around them lives in the BridgeManager class. */
module RangeIndex {
  import opened Wrappers
  import opened Spatial

  /** One `(system_name, distance)` entry of a candidate list; the distance
      is the squared metre distance. */
  datatype Candidate = Candidate(system: string, sqDist: nat)

  predicate SortedByDistance(s: seq<Candidate>) {
    forall i, j :: 0 <= i < j < |s| ==> s[i].sqDist <= s[j].sqDist
  }

  /** The entries of `s` at distance `d`, in their order in `s`. A sort is
      stable exactly when it keeps every such sub-list. */
  function AtDistance(s: seq<Candidate>, d: nat): seq<Candidate> {
    if s == [] then []
    else if s[0].sqDist == d then [s[0]] + AtDistance(s[1..], d)
    else AtDistance(s[1..], d)
  }

  lemma {:induction false} AtDistanceAppend(a: seq<Candidate>, b: seq<Candidate>, d: nat)
    ensures AtDistance(a + b, d) == AtDistance(a, d) + AtDistance(b, d)
  {
    if a != [] {
      var ab := a + b;
      assert ab[0] == a[0];
      assert ab[1..] == a[1..] + b by {
        forall k | 0 <= k < |ab| - 1 ensures ab[1..][k] == (a[1..] + b)[k] {
          if k < |a| - 1 {
            assert ab[k + 1] == a[k + 1];
          } else {
            assert ab[k + 1] == b[k + 1 - |a|];
          }
        }
      }
      AtDistanceAppend(a[1..], b, d);
      if a[0].sqDist == d {
        calc {
          AtDistance(ab, d);
          [a[0]] + AtDistance(a[1..] + b, d);
          [a[0]] + (AtDistance(a[1..], d) + AtDistance(b, d));
          ([a[0]] + AtDistance(a[1..], d)) + AtDistance(b, d);
        }
      } else {
        calc {
          AtDistance(ab, d);
          AtDistance(a[1..] + b, d);
          AtDistance(a[1..], d) + AtDistance(b, d);
        }
      }
    } else {
      assert a + b == b;
    }
  }

  lemma {:induction false} AtDistanceNone(s: seq<Candidate>, d: nat)
    requires forall i :: 0 <= i < |s| ==> s[i].sqDist != d
    ensures AtDistance(s, d) == []
  {
    if s != [] {
      AtDistanceNone(s[1..], d);
    }
  }

  /** Places `x` after every entry of the sorted list `s` that is not
      farther than `x`, so that equal distances keep their arrival order. */
  function Insert(x: Candidate, s: seq<Candidate>): (r: seq<Candidate>)
    ensures multiset(r) == multiset(s) + multiset{x}
  {
    if s == [] then [x]
    else if x.sqDist < s[0].sqDist then [x] + s
    else
      assert s == [s[0]] + s[1..];
      [s[0]] + Insert(x, s[1..])
  }

  /** Inserting an entry no nearer than `b` into a list no nearer than `b`
      gives a list no nearer than `b`. */
  lemma {:induction false} InsertBounded(x: Candidate, s: seq<Candidate>, b: nat)
    requires x.sqDist >= b
    requires forall i :: 0 <= i < |s| ==> s[i].sqDist >= b
    ensures forall i :: 0 <= i < |Insert(x, s)| ==> Insert(x, s)[i].sqDist >= b
  {
    if s != [] && x.sqDist >= s[0].sqDist {
      InsertBounded(x, s[1..], b);
      var r := Insert(x, s[1..]);
      assert Insert(x, s) == [s[0]] + r;
      forall i | 0 <= i < |Insert(x, s)| ensures Insert(x, s)[i].sqDist >= b {
        if i > 0 {
          assert Insert(x, s)[i] == r[i - 1];
        }
      }
    }
  }

  /** Inserting into a sorted list keeps it sorted. */
  lemma {:induction false} InsertSorted(x: Candidate, s: seq<Candidate>)
    requires SortedByDistance(s)
    ensures SortedByDistance(Insert(x, s))
  {
    if s != [] {
      var r := Insert(x, s);
      if x.sqDist < s[0].sqDist {
        assert r == [x] + s;
        forall i, j | 0 <= i < j < |r| ensures r[i].sqDist <= r[j].sqDist {
          assert r[j] == s[j - 1];
          if i > 0 {
            assert r[i] == s[i - 1];
          } else {
            assert s[0].sqDist <= s[j - 1].sqDist;
          }
        }
      } else {
        var rest := s[1..];
        assert SortedByDistance(rest) by {
          forall i, j | 0 <= i < j < |rest| ensures rest[i].sqDist <= rest[j].sqDist {
            assert rest[i] == s[i + 1] && rest[j] == s[j + 1];
          }
        }
        forall i | 0 <= i < |rest| ensures rest[i].sqDist >= s[0].sqDist {
          assert rest[i] == s[i + 1];
        }
        InsertSorted(x, rest);
        InsertBounded(x, rest, s[0].sqDist);
        var t := Insert(x, rest);
        assert r == [s[0]] + t;
        forall i, j | 0 <= i < j < |r| ensures r[i].sqDist <= r[j].sqDist {
          assert r[j] == t[j - 1];
          if i > 0 {
            assert r[i] == t[i - 1];
          }
        }
      }
    }
  }

  /** `AtDistance` of a list with one more entry in front. */
  lemma AtDistanceCons(c: Candidate, t: seq<Candidate>, d: nat)
    ensures AtDistance([c] + t, d) == (if c.sqDist == d then [c] else []) + AtDistance(t, d)
  {
    var ct := [c] + t;
    assert ct[0] == c && ct[1..] == t;
  }

  lemma AtDistanceSingle(x: Candidate, d: nat)
    ensures AtDistance([x], d) == if x.sqDist == d then [x] else []
  {
    AtDistanceCons(x, [], d);
    assert [x] + [] == [x];
  }

  /** Inserting in front of a sorted list whose entries are all farther. */
  lemma InsertStableFront(x: Candidate, s: seq<Candidate>, d: nat)
    requires SortedByDistance(s) && s != [] && x.sqDist < s[0].sqDist
    ensures AtDistance([x] + s, d) == AtDistance(s, d) + AtDistance([x], d)
  {
    AtDistanceSingle(x, d);
    AtDistanceCons(x, s, d);
    if x.sqDist == d {
      forall i | 0 <= i < |s| ensures s[i].sqDist != d {
        assert s[0].sqDist <= s[i].sqDist;
      }
      AtDistanceNone(s, d);
    } else {
      assert AtDistance(s, d) + [] == AtDistance(s, d);
    }
  }

  /** Consing the same entry onto two lists keeps a split of their
      at-distance entries. */
  lemma AtDistanceConsSplit(c: Candidate, t: seq<Candidate>, r: seq<Candidate>, u: seq<Candidate>, d: nat)
    requires AtDistance(t, d) == AtDistance(r, d) + u
    ensures AtDistance([c] + t, d) == AtDistance([c] + r, d) + u
  {
    var h := if c.sqDist == d then [c] else [];
    AtDistanceCons(c, t, d);
    AtDistanceCons(c, r, d);
    assert h + (AtDistance(r, d) + u) == (h + AtDistance(r, d)) + u;
  }

  lemma {:induction false} InsertStable(x: Candidate, s: seq<Candidate>, d: nat)
    requires SortedByDistance(s)
    ensures AtDistance(Insert(x, s), d) == AtDistance(s, d) + AtDistance([x], d)
  {
    if s == [] {
      assert Insert(x, s) == [x];
      assert [] + AtDistance([x], d) == AtDistance([x], d);
    } else if x.sqDist < s[0].sqDist {
      assert Insert(x, s) == [x] + s;
      InsertStableFront(x, s, d);
    } else {
      var rest := s[1..];
      assert SortedByDistance(rest) by {
        forall i, j | 0 <= i < j < |rest| ensures rest[i].sqDist <= rest[j].sqDist {
          assert rest[i] == s[i + 1] && rest[j] == s[j + 1];
        }
      }
      InsertStable(x, rest, d);
      assert Insert(x, s) == [s[0]] + Insert(x, rest);
      assert s == [s[0]] + rest;
      AtDistanceConsSplit(s[0], Insert(x, rest), rest, AtDistance([x], d), d);
    }
  }

  /** The model of `valid_connections.sort(key=lambda x: x[1])`
      (bridge_manager.py:125): Python's sort is stable, and so is this
      insertion sort. */
  function SortByDistance(s: seq<Candidate>): (r: seq<Candidate>)
    ensures SortedByDistance(r)
    ensures multiset(r) == multiset(s)
  {
    if s == [] then []
    else
      assert s == s[..|s| - 1] + [s[|s| - 1]];
      var sorted := SortByDistance(s[..|s| - 1]);
      InsertSorted(s[|s| - 1], sorted);
      Insert(s[|s| - 1], sorted)
  }

  /** The sort keeps, for every distance, the order in which the entries at
      that distance arrived. */
  lemma {:induction false} SortByDistanceStable(s: seq<Candidate>, d: nat)
    ensures AtDistance(SortByDistance(s), d) == AtDistance(s, d)
  {
    if s != [] {
      var init, x := s[..|s| - 1], s[|s| - 1];
      var sorted := SortByDistance(init);
      assert s == init + [x];
      SortStep(s);
      SortByDistanceStable(init, d);
      InsertStable(x, sorted, d);
      AtDistanceAppend(init, [x], d);
      calc {
        AtDistance(SortByDistance(s), d);
        AtDistance(Insert(x, sorted), d);
        AtDistance(sorted, d) + AtDistance([x], d);
        AtDistance(init, d) + AtDistance([x], d);
        AtDistance(init + [x], d);
      }
    }
  }

  lemma SortStep(s: seq<Candidate>)
    requires s != []
    ensures SortByDistance(s) == Insert(s[|s| - 1], SortByDistance(s[..|s| - 1]))
  {
  }

  /** A node is a candidate partner of `system`: another node, not excluded. */
  predicate Eligible(system: string, exclude: set<string>, other: string) {
    other != system && other !in exclude
  }

  /** The loop of bridge_manager.py:114-122 over the nodes `names`, in order:
      skips the query system and the excluded systems, asks
      can_bridge_connect for every other node (whose failure aborts the
      query) and keeps the nodes in range with their distance. */
  function Collect(g: Network, system: string, exclude: set<string>, names: seq<string>): (r: Result<seq<Candidate>, BridgeError>)
    decreases |names|
  {
    if names == [] then Ok([])
    else
      var found :- Collect(g, system, exclude, names[..|names| - 1]);
      var other := names[|names| - 1];
      if !Eligible(system, exclude, other) then Ok(found)
      else
        var verdict :- CanBridgeConnect(g, system, other);
        if verdict.0 then Ok(found + [Candidate(other, verdict.1)]) else Ok(found)
  }

  /** A scan that fails on a prefix of the nodes fails on all of them,
      with the same error: the first failure aborts the query. */
  lemma {:induction false} CollectErrExtends(g: Network, system: string, exclude: set<string>, names: seq<string>, k: nat)
    requires k <= |names|
    requires Collect(g, system, exclude, names[..k]).Err?
    ensures Collect(g, system, exclude, names) == Collect(g, system, exclude, names[..k])
    decreases |names| - k
  {
    if k < |names| {
      var init := names[..|names| - 1];
      assert init[..k] == names[..k];
      CollectErrExtends(g, system, exclude, init, k);
    } else {
      assert names[..k] == names;
    }
  }

  /** get_valid_connections (bridge_manager.py:112-125), without its cache. */
  function ValidConnections(g: Network, system: string, exclude: set<string>): Result<seq<Candidate>, BridgeError> {
    var found :- Collect(g, system, exclude, g.nodes);
    Ok(SortByDistance(found))
  }

  /** The entries of a successful scan are exactly the eligible nodes of
      `names` within range, each with its distance from `system`. */
  lemma {:induction false} CollectMembers(g: Network, system: string, exclude: set<string>, names: seq<string>, c: Candidate)
    requires Collect(g, system, exclude, names).Ok?
    ensures c in Collect(g, system, exclude, names).value <==>
      && c.system in names
      && Eligible(system, exclude, c.system)
      && Distance(g, system, c.system) == Ok(c.sqDist)
      && WithinRange(c.sqDist)
  {
    if names != [] {
      var init := names[..|names| - 1];
      assert names == init + [names[|names| - 1]];
      CollectMembers(g, system, exclude, init, c);
    }
  }

  /** A scan fails exactly when some eligible node of `names` has no
      distance from `system`. */
  lemma {:induction false} CollectSucceeds(g: Network, system: string, exclude: set<string>, names: seq<string>)
    ensures Collect(g, system, exclude, names).Ok? <==>
      forall n :: n in names && Eligible(system, exclude, n) ==> Distance(g, system, n).Ok?
  {
    if names != [] {
      var init := names[..|names| - 1];
      assert names == init + [names[|names| - 1]];
      CollectSucceeds(g, system, exclude, init);
    }
  }

  /** A scan over distinct names lists every system at most once. */
  lemma {:induction false} CollectDistinct(g: Network, system: string, exclude: set<string>, names: seq<string>)
    requires Collect(g, system, exclude, names).Ok?
    requires forall i, j :: 0 <= i < j < |names| ==> names[i] != names[j]
    ensures DistinctSystems(Collect(g, system, exclude, names).value)
  {
    if names != [] {
      var init, last := names[..|names| - 1], names[|names| - 1];
      assert names == init + [last];
      CollectDistinct(g, system, exclude, init);
      var found := Collect(g, system, exclude, init).value;
      forall c | c in found ensures c.system != last {
        CollectMembers(g, system, exclude, init, c);
      }
    }
  }

  /** get_valid_connections promises (bridge_manager.py:114-125): the query
      system and the excluded systems never appear, every entry is a node
      within 5 LY at its true distance, every such node appears, the list is
      sorted by distance and nodes at equal distance keep the graph's
      enumeration order. */
  lemma ValidConnectionsCorrect(g: Network, system: string, exclude: set<string>)
    requires ValidConnections(g, system, exclude).Ok?
    ensures var conns := ValidConnections(g, system, exclude).value;
      && SortedByDistance(conns)
      && (forall c :: c in conns <==>
            c.system in g.nodes && Eligible(system, exclude, c.system)
            && Distance(g, system, c.system) == Ok(c.sqDist) && WithinRange(c.sqDist))
      && (forall d :: AtDistance(conns, d) == AtDistance(Collect(g, system, exclude, g.nodes).value, d))
  {
    var found := Collect(g, system, exclude, g.nodes).value;
    var conns := SortByDistance(found);
    forall c ensures c in conns <==>
        c.system in g.nodes && Eligible(system, exclude, c.system)
        && Distance(g, system, c.system) == Ok(c.sqDist) && WithinRange(c.sqDist)
    {
      assert c in conns <==> c in multiset(conns);
      CollectMembers(g, system, exclude, g.nodes, c);
    }
    forall d ensures AtDistance(conns, d) == AtDistance(found, d) {
      SortByDistanceStable(found, d);
    }
  }

  /** The query fails exactly when some eligible node has no distance from
      the query system; on a graph whose nodes all carry coordinates it
      fails only for a system that is not a node, and then only when some
      other node is left to compare it with. */
  lemma ValidConnectionsSucceeds(g: Network, system: string, exclude: set<string>)
    ensures ValidConnections(g, system, exclude).Ok? <==>
      forall n :: n in g.nodes && Eligible(system, exclude, n) ==> Distance(g, system, n).Ok?
    ensures WellFormed(g) && Located(g) && system in g.info ==> ValidConnections(g, system, exclude).Ok?
  {
    CollectSucceeds(g, system, exclude, g.nodes);
  }

  /** Every candidate list of a well-formed graph names each system once. */
  lemma ValidConnectionsDistinct(g: Network, system: string, exclude: set<string>)
    requires WellFormed(g)
    requires ValidConnections(g, system, exclude).Ok?
    ensures DistinctSystems(ValidConnections(g, system, exclude).value)
  {
    var found := Collect(g, system, exclude, g.nodes).value;
    CollectDistinct(g, system, exclude, g.nodes);
    DistinctSystemsPermutation(found, SortByDistance(found));
  }

  predicate DistinctSystems(s: seq<Candidate>) {
    forall i, j :: 0 <= i < j < |s| ==> s[i].system != s[j].system
  }

  lemma DistinctSystemsPermutation(a: seq<Candidate>, b: seq<Candidate>)
    requires DistinctSystems(a)
    requires multiset(a) == multiset(b)
    ensures DistinctSystems(b)
  {
    forall i, j | 0 <= i < j < |b| ensures b[i].system != b[j].system {
      if b[i].system == b[j].system {
        assert b[i] in multiset(a) && b[j] in multiset(a);
        var p :| 0 <= p < |a| && a[p] == b[i];
        var q :| 0 <= q < |a| && a[q] == b[j];
        assert p == q;
        DistinctCount(a, b[i]);
        CountTwo(b, i, j);
      }
    }
  }

  lemma CountTwo(s: seq<Candidate>, i: nat, j: nat)
    requires i < j < |s| && s[i] == s[j]
    ensures multiset(s)[s[i]] >= 2
  {
    var x := s[i];
    assert s == s[..i] + [x] + s[i + 1..j] + [x] + s[j + 1..];
    assert multiset(s) == multiset(s[..i]) + multiset{x} + multiset(s[i + 1..j]) + multiset{x} + multiset(s[j + 1..]);
  }

  lemma {:induction false} DistinctCount(s: seq<Candidate>, c: Candidate)
    requires DistinctSystems(s)
    ensures multiset(s)[c] <= 1
  {
    if s != [] {
      assert s == [s[0]] + s[1..];
      assert DistinctSystems(s[1..]);
      DistinctCount(s[1..], c);
      if s[0] == c {
        assert c !in s[1..];
      }
    }
  }

  /** get_bridge_summary (bridge_manager.py:142-165) without the average
      distance: the number of candidates and the first and last entry. */
  datatype Summary = Summary(
    system: string,
    totalConnections: nat,
    closest: Option<Candidate>,
    farthest: Option<Candidate>)

  function SummaryOf(system: string, conns: seq<Candidate>): Summary {
    if conns == [] then Summary(system, 0, None, None)
    else Summary(system, |conns|, Some(conns[0]), Some(conns[|conns| - 1]))
  }

  function BridgeSummary(g: Network, system: string): Result<Summary, BridgeError> {
    var conns :- ValidConnections(g, system, {});
    Ok(SummaryOf(system, conns))
  }

  /** The set of nodes a bridge from `system` could reach. */
  function InRangeSet(g: Network, system: string): set<string> {
    set n | n in g.nodes && n != system && Distance(g, system, n).Ok? && WithinRange(Distance(g, system, n).value)
  }

  /** What the summary reports: no candidate means count 0 and no closest
      or farthest system; otherwise the count is the number of nodes in
      range, the closest entry is at least as near as every node in range
      and the farthest at least as far, so closest <= farthest. */
  lemma BridgeSummaryCorrect(g: Network, system: string)
    requires WellFormed(g)
    requires BridgeSummary(g, system).Ok?
    ensures var s := BridgeSummary(g, system).value;
      && s.system == system
      && (s.totalConnections == 0 <==> s.closest.None?)
      && (s.closest.None? <==> s.farthest.None?)
      && s.totalConnections == |InRangeSet(g, system)|
      && (s.closest.Some? ==>
            && s.closest.value.system in InRangeSet(g, system)
            && s.farthest.value.system in InRangeSet(g, system)
            && s.closest.value.sqDist <= s.farthest.value.sqDist
            && forall n :: n in InRangeSet(g, system) ==>
                 s.closest.value.sqDist <= Distance(g, system, n).value <= s.farthest.value.sqDist)
  {
    var conns := ValidConnections(g, system, {}).value;
    assert BridgeSummary(g, system).value == SummaryOf(system, conns);
    ValidConnectionsCorrect(g, system, {});
    ValidConnectionsDistinct(g, system, {});
    CandidateNames(g, system, conns);
    DistinctNamesCard(conns);
    if conns != [] {
      SummaryBounds(g, system, conns);
    }
  }

  /** The first and last entries of a sorted candidate list bound every
      node in range. */
  lemma SummaryBounds(g: Network, system: string, conns: seq<Candidate>)
    requires conns != [] && SortedByDistance(conns)
    requires forall c :: c in conns <==>
            c.system in g.nodes && Eligible(system, {}, c.system)
            && Distance(g, system, c.system) == Ok(c.sqDist) && WithinRange(c.sqDist)
    ensures conns[0].system in InRangeSet(g, system) && conns[|conns| - 1].system in InRangeSet(g, system)
    ensures forall n :: n in InRangeSet(g, system) ==>
      conns[0].sqDist <= Distance(g, system, n).value <= conns[|conns| - 1].sqDist
  {
    forall n | n in InRangeSet(g, system)
      ensures conns[0].sqDist <= Distance(g, system, n).value <= conns[|conns| - 1].sqDist
    {
      var c := Candidate(n, Distance(g, system, n).value);
      assert c in conns;
      var k :| 0 <= k < |conns| && conns[k] == c;
    }
    assert conns[0] in conns && conns[|conns| - 1] in conns;
  }

  lemma CandidateNames(g: Network, system: string, conns: seq<Candidate>)
    requires forall c :: c in conns <==>
            c.system in g.nodes && Eligible(system, {}, c.system)
            && Distance(g, system, c.system) == Ok(c.sqDist) && WithinRange(c.sqDist)
    ensures Names(conns) == InRangeSet(g, system)
  {
    forall n | n in InRangeSet(g, system) ensures n in Names(conns) {
      NamesMeans(conns, n);
      var c := Candidate(n, Distance(g, system, n).value);
      assert c in conns;
      var k :| 0 <= k < |conns| && conns[k] == c;
    }
    forall n | n in Names(conns) ensures n in InRangeSet(g, system) {
      NamesMeans(conns, n);
      var k :| 0 <= k < |conns| && conns[k].system == n;
      assert conns[k] in conns;
    }
  }

  /** The systems a candidate list names. */
  function Names(s: seq<Candidate>): set<string> {
    if s == [] then {} else Names(s[1..]) + {s[0].system}
  }

  lemma {:induction false} NamesMeans(s: seq<Candidate>, n: string)
    ensures n in Names(s) <==> exists k :: 0 <= k < |s| && s[k].system == n
  {
    if s != [] {
      NamesMeans(s[1..], n);
      if n in Names(s[1..]) {
        var k :| 0 <= k < |s[1..]| && s[1..][k].system == n;
        assert s[k + 1].system == n;
      }
      forall k | 0 <= k < |s| && s[k].system == n ensures n in Names(s) {
        if k > 0 {
          assert s[1..][k - 1].system == n;
        }
      }
    }
  }

  lemma {:induction false} DistinctNamesCard(s: seq<Candidate>)
    requires DistinctSystems(s)
    ensures |Names(s)| == |s|
  {
    if s != [] {
      var rest := s[1..];
      assert DistinctSystems(rest) by {
        forall i, j | 0 <= i < j < |rest| ensures rest[i].system != rest[j].system {
          assert rest[i] == s[i + 1] && rest[j] == s[j + 1];
        }
      }
      DistinctNamesCard(rest);
      NamesMeans(rest, s[0].system);
      forall k | 0 <= k < |rest| ensures rest[k].system != s[0].system {
        assert rest[k] == s[k + 1];
      }
    }
  }
}
