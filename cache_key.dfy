/** The memo key of get_valid_connections as the source builds it
    (bridge_manager.py:107): the query system, a colon, and the excluded
    systems sorted and joined with commas. Two different questions can
    share that text, when a system name contains a comma, and the memo then
    answers one with the list computed for the other. The model's memo,
    `BridgeManager.BridgeManager.cache`, is keyed by the pair
    `BridgeManager.CacheKey` instead. */
module CacheKeyText {
  import opened Wrappers
  import opened Spatial
  import opened RangeIndex
  import opened Evaluator

  lemma {:induction false} StrLessTotal(a: string, b: string)
    requires a != b
    ensures StrLess(a, b) || StrLess(b, a)
    decreases |a|
  {
    if a != [] && b != [] && a[0] == b[0] {
      assert a == [a[0]] + a[1..] && b == [b[0]] + b[1..];
      StrLessTotal(a[1..], b[1..]);
    }
  }

  lemma {:induction false} StrLessTransitive(a: string, b: string, c: string)
    requires StrLess(a, b) && StrLess(b, c)
    ensures StrLess(a, c)
    decreases |a|
  {
    if a != [] && a[0] == b[0] && b[0] == c[0] {
      StrLessTransitive(a[1..], b[1..], c[1..]);
    }
  }

  /** Strictly increasing in Python's string order. */
  predicate Increasing(s: seq<string>) {
    forall i, j :: 0 <= i < j < |s| ==> StrLess(s[i], s[j])
  }

  /** `x` put in its place in an increasing list. */
  function InsertName(x: string, s: seq<string>): seq<string> {
    if s == [] then [x]
    else if StrLess(s[0], x) then [s[0]] + InsertName(x, s[1..])
    else [x] + s
  }

  lemma {:induction false} InsertNameCorrect(x: string, s: seq<string>)
    requires Increasing(s) && x !in s
    ensures Increasing(InsertName(x, s))
    ensures forall y :: y in InsertName(x, s) <==> y in s || y == x
    ensures |InsertName(x, s)| == |s| + 1
  {
    if s != [] {
      var r := InsertName(x, s);
      if StrLess(s[0], x) {
        assert Increasing(s[1..]) by {
          forall i, j | 0 <= i < j < |s[1..]| ensures StrLess(s[1..][i], s[1..][j]) {
            assert s[1..][i] == s[i + 1] && s[1..][j] == s[j + 1];
          }
        }
        InsertNameCorrect(x, s[1..]);
        var rest := InsertName(x, s[1..]);
        assert r == [s[0]] + rest;
        forall j | 0 <= j < |rest| ensures StrLess(s[0], rest[j]) {
          assert rest[j] in rest;
          if rest[j] != x {
            var k :| 0 <= k < |s[1..]| && s[1..][k] == rest[j];
            assert s[k + 1] == rest[j];
          }
        }
        forall i, j | 0 <= i < j < |r| ensures StrLess(r[i], r[j]) {
          if i > 0 {
            assert r[i] == rest[i - 1] && r[j] == rest[j - 1];
          } else {
            assert r[j] == rest[j - 1];
          }
        }
        assert s == [s[0]] + s[1..];
      } else {
        assert s[0] in s;
        StrLessTotal(x, s[0]);
        assert r == [x] + s;
        forall i, j | 0 <= i < j < |r| ensures StrLess(r[i], r[j]) {
          if i > 0 {
            assert r[i] == s[i - 1] && r[j] == s[j - 1];
          } else {
            assert r[j] == s[j - 1];
            if j > 1 {
              StrLessTransitive(x, s[0], s[j - 1]);
            }
          }
        }
      }
    }
  }

  /** `sorted(exclude_systems)`: the set as an increasing list. */
  ghost function SortedNames(s: set<string>): seq<string>
    decreases |s|
  {
    if s == {} then []
    else
      var x :| x in s;
      InsertName(x, SortedNames(s - {x}))
  }

  /** SortedNames lists every element of the set once, in increasing
      order. */
  lemma {:induction false} SortedNamesCorrect(s: set<string>)
    ensures Increasing(SortedNames(s))
    ensures forall y :: y in SortedNames(s) <==> y in s
    ensures |SortedNames(s)| == |s|
    decreases |s|
  {
    if s != {} {
      var x :| x in s && SortedNames(s) == InsertName(x, SortedNames(s - {x}));
      SortedNamesCorrect(s - {x});
      InsertNameCorrect(x, SortedNames(s - {x}));
    }
  }

  /** `sep.join(parts)`. */
  function Join(sep: string, parts: seq<string>): string {
    if parts == [] then ""
    else if |parts| == 1 then parts[0]
    else parts[0] + sep + Join(sep, parts[1..])
  }

  /** The key text `f"{system}:{','.join(sorted(exclude_systems))}"`. */
  ghost function KeyText(system: string, exclude: set<string>): string {
    system + ":" + Join(",", SortedNames(exclude))
  }

  lemma SortedPair()
    ensures SortedNames({"B", "C"}) == ["B", "C"]
  {
    var r := SortedNames({"B", "C"});
    SortedNamesCorrect({"B", "C"});
    assert |r| == 2;
    assert r[0] in {"B", "C"} && r[1] in {"B", "C"};
    assert StrLess(r[0], r[1]);
    assert StrLess("B", "C") && !StrLess("C", "B");
    StrLessIrreflexive(r[0]);
    assert r == [r[0], r[1]];
  }

  /** Two different questions that share one key text: system "A"
      excluding the single system "B,C", and system "A" excluding "B" and
      "C". */
  lemma KeyTextCollides()
    ensures {"B,C"} != {"B", "C"}
    ensures KeyText("A", {"B,C"}) == KeyText("A", {"B", "C"})
  {
    assert "B" in {"B", "C"} && "B" !in {"B,C"};
    SortedNamesCorrect({"B,C"});
    assert SortedNames({"B,C"}) == ["B,C"];
    SortedPair();
  }

  /** get_valid_connections with the source's text-keyed memo: a hit
      answers from the memo, a miss computes the list. */
  ghost function LookupByText(memo: map<string, seq<Candidate>>, g: Network, system: string, exclude: set<string>): Result<seq<Candidate>, BridgeError> {
    var key := KeyText(system, exclude);
    if key in memo then Ok(memo[key]) else ValidConnections(g, system, exclude)
  }

  /** The failure that follows: once the query "A excluding B,C" has been
      memoised, the query "A excluding B and C" is answered with a list that
      contains B, a system it excludes, whenever B is within range of A. */
  lemma LookupByTextServesExcluded(g: Network, d: nat)
    requires "B" in g.nodes && Distance(g, "A", "B") == Ok(d) && WithinRange(d)
    requires ValidConnections(g, "A", {"B,C"}).Ok?
    ensures var memo := map[KeyText("A", {"B,C"}) := ValidConnections(g, "A", {"B,C"}).value];
      && LookupByText(memo, g, "A", {"B", "C"}).Ok?
      && Candidate("B", d) in LookupByText(memo, g, "A", {"B", "C"}).value
  {
    KeyTextCollides();
    ValidConnectionsCorrect(g, "A", {"B,C"});
    assert Eligible("A", {"B,C"}, "B");
  }
}
