/** The committed bridge set (bridge_manager.py:27-35, 222-303): a list of
    bridge records, in the order they were added, in which no system should
    be an endpoint of two bridges. These are the specification functions of
    the list operations; `BridgeManager.BridgeManager` holds the list and
    runs them. */
module BridgeSet {
  import opened Wrappers
  import opened Spatial

  /** A bridge record `{from, to, distance_ly, active}`; the distance is the
      squared metre distance. */
  datatype Bridge = Bridge(from: string, to: string, sqDist: nat, active: bool)

  /** `b` joins `a` and `c`, in either orientation. */
  predicate Joins(b: Bridge, a: string, c: string) {
    (b.from == a && b.to == c) || (b.from == c && b.to == a)
  }

  /** `b` has `s` as one of its endpoints. */
  predicate Touches(b: Bridge, s: string) {
    b.from == s || b.to == s
  }

  /** has_bridge (bridge_manager.py:278-284), scanning in list order. */
  predicate Connected(bs: seq<Bridge>, a: string, c: string) {
    bs != [] && (Connected(bs[..|bs| - 1], a, c) || Joins(bs[|bs| - 1], a, c))
  }

  /** get_used_systems (bridge_manager.py:286-292). */
  function UsedSystems(bs: seq<Bridge>): set<string> {
    if bs == [] then {} else UsedSystems(bs[..|bs| - 1]) + {bs[|bs| - 1].from, bs[|bs| - 1].to}
  }

  /** The list remove_bridge rebuilds (bridge_manager.py:266-271): every
      record that does not join `a` and `c`, in order. */
  function Without(bs: seq<Bridge>, a: string, c: string): seq<Bridge> {
    if bs == [] then []
    else Without(bs[..|bs| - 1], a, c) + (if Joins(bs[|bs| - 1], a, c) then [] else [bs[|bs| - 1]])
  }

  /** get_bridges_for_system (bridge_manager.py:294-299): the records with
      `s` as an endpoint, in order. */
  function BridgesFor(bs: seq<Bridge>, s: string): seq<Bridge> {
    if bs == [] then []
    else BridgesFor(bs[..|bs| - 1], s) + (if Touches(bs[|bs| - 1], s) then [bs[|bs| - 1]] else [])
  }

  /** No system is an endpoint of two records. */
  predicate Exclusive(bs: seq<Bridge>) {
    forall i, j :: 0 <= i < j < |bs| ==>
      bs[i].from != bs[j].from && bs[i].from != bs[j].to && bs[i].to != bs[j].from && bs[i].to != bs[j].to
  }

  /** The answers of add_bridge: the bridge was added, or the first reason
      it was refused (bridge_manager.py:237-249). */
  datatype AddResult = Added | AlreadyExists | SystemInUse(system: string) | TooFar(sqDist: nat)

  /** add_bridge on the list `bs` with the graph `g`: the answer and the new
      list. The checks run in the source's order: an existing bridge in
      either orientation, then the first endpoint in use, then the second;
      only then is the distance computed, which fails when the graph is not
      set or a system is unknown or has no coordinates. With `validate` an
      out-of-range pair is refused; without it any distance is accepted. */
  function AddBridge(g: Option<Network>, bs: seq<Bridge>, a: string, c: string, active: bool, validate: bool): Result<(AddResult, seq<Bridge>), BridgeError> {
    if Connected(bs, a, c) then Ok((AlreadyExists, bs))
    else if a in UsedSystems(bs) then Ok((SystemInUse(a), bs))
    else if c in UsedSystems(bs) then Ok((SystemInUse(c), bs))
    else if g.None? then Err(GraphNotSet)
    else if validate then
      var verdict :- CanBridgeConnect(g.value, a, c);
      if !verdict.0 then Ok((TooFar(verdict.1), bs))
      else Ok((Added, bs + [Bridge(a, c, verdict.1, active)]))
    else
      var d :- Distance(g.value, a, c);
      Ok((Added, bs + [Bridge(a, c, d, active)]))
  }

  // ---------------------------------------------------------------------
  // The queries.

  lemma {:induction false} ConnectedMeans(bs: seq<Bridge>, a: string, c: string)
    ensures Connected(bs, a, c) <==> exists i :: 0 <= i < |bs| && Joins(bs[i], a, c)
  {
    if bs != [] {
      var init := bs[..|bs| - 1];
      ConnectedMeans(init, a, c);
      if Connected(init, a, c) {
        var i :| 0 <= i < |init| && Joins(init[i], a, c);
        assert bs[i] == init[i];
      }
      if i :| 0 <= i < |bs| && Joins(bs[i], a, c) {
        if i < |init| {
          assert init[i] == bs[i];
        }
      }
    }
  }

  /** has_bridge does not depend on the orientation it is asked in. */
  lemma {:induction false} ConnectedSymmetric(bs: seq<Bridge>, a: string, c: string)
    ensures Connected(bs, a, c) <==> Connected(bs, c, a)
  {
    if bs != [] {
      ConnectedSymmetric(bs[..|bs| - 1], a, c);
    }
  }

  lemma {:induction false} UsedSystemsMeans(bs: seq<Bridge>, s: string)
    ensures s in UsedSystems(bs) <==> exists i :: 0 <= i < |bs| && Touches(bs[i], s)
  {
    if bs != [] {
      var init := bs[..|bs| - 1];
      UsedSystemsMeans(init, s);
      if s in UsedSystems(init) {
        var i :| 0 <= i < |init| && Touches(init[i], s);
        assert bs[i] == init[i];
      }
      if i :| 0 <= i < |bs| && Touches(bs[i], s) {
        if i < |init| {
          assert init[i] == bs[i];
        }
      }
    }
  }

  /** Both systems of an existing bridge are in use. */
  lemma {:induction false} ConnectedUsed(bs: seq<Bridge>, a: string, c: string)
    ensures Connected(bs, a, c) ==> a in UsedSystems(bs) && c in UsedSystems(bs)
  {
    if bs != [] {
      ConnectedUsed(bs[..|bs| - 1], a, c);
    }
  }

  /** get_bridges_for_system lists exactly the records touching `s`, and in
      an exclusive list there is at most one of them. */
  lemma {:induction false} BridgesForCorrect(bs: seq<Bridge>, s: string)
    ensures forall b :: b in BridgesFor(bs, s) <==> b in bs && Touches(b, s)
    ensures |BridgesFor(bs, s)| <= |bs|
    ensures BridgesFor(bs, s) == [] <==> s !in UsedSystems(bs)
    ensures Exclusive(bs) ==> |BridgesFor(bs, s)| <= 1
  {
    if bs != [] {
      var init, last := bs[..|bs| - 1], bs[|bs| - 1];
      assert bs == init + [last];
      BridgesForCorrect(init, s);
      assert Exclusive(bs) ==> Exclusive(init) by {
        if Exclusive(bs) {
          forall i, j | 0 <= i < j < |init|
            ensures init[i].from != init[j].from && init[i].from != init[j].to
              && init[i].to != init[j].from && init[i].to != init[j].to
          {
            assert init[i] == bs[i] && init[j] == bs[j];
          }
        }
      }
      if Exclusive(bs) && Touches(last, s) {
        forall b | b in init ensures !Touches(b, s) {
          var i :| 0 <= i < |init| && init[i] == b;
          assert bs[i] == b && bs[|init|] == last;
        }
        if BridgesFor(init, s) != [] {
          assert BridgesFor(init, s)[0] in BridgesFor(init, s);
        }
      }
    }
  }

  // ---------------------------------------------------------------------
  // Removal.

  /** remove_bridge keeps every record that does not join the pair, drops
      every one that does, and keeps the survivors in their order: removal
      distributes over concatenation. */
  lemma {:induction false} WithoutConcat(x: seq<Bridge>, y: seq<Bridge>, a: string, c: string)
    ensures Without(x + y, a, c) == Without(x, a, c) + Without(y, a, c)
    decreases |y|
  {
    if y == [] {
      assert x + y == x;
    } else {
      var init, last := y[..|y| - 1], y[|y| - 1];
      assert (x + y)[..|x + y| - 1] == x + init;
      WithoutConcat(x, init, a, c);
    }
  }

  lemma {:induction false} WithoutMembers(bs: seq<Bridge>, a: string, c: string)
    ensures forall b :: b in Without(bs, a, c) <==> b in bs && !Joins(b, a, c)
  {
    if bs != [] {
      var init := bs[..|bs| - 1];
      assert bs == init + [bs[|bs| - 1]];
      WithoutMembers(init, a, c);
    }
  }

  /** remove_bridge reports a removal exactly when some record joined the
      pair (the list got shorter); otherwise the list is unchanged. After it
      no record joins the pair, in either orientation. */
  lemma {:induction false} WithoutCorrect(bs: seq<Bridge>, a: string, c: string)
    ensures |Without(bs, a, c)| <= |bs|
    ensures |Without(bs, a, c)| < |bs| <==> Connected(bs, a, c)
    ensures !Connected(bs, a, c) ==> Without(bs, a, c) == bs
    ensures !Connected(Without(bs, a, c), a, c) && !Connected(Without(bs, a, c), c, a)
  {
    if bs != [] {
      var init := bs[..|bs| - 1];
      WithoutCorrect(init, a, c);
      assert bs == init + [bs[|bs| - 1]];
    }
    WithoutMembers(bs, a, c);
    var w := Without(bs, a, c);
    ConnectedMeans(w, a, c);
    ConnectedMeans(w, c, a);
    forall i | 0 <= i < |w| ensures !Joins(w[i], a, c) && !Joins(w[i], c, a) {
      assert w[i] in w;
    }
  }

  /** Removing records keeps the list exclusive. */
  lemma WithoutExclusive(bs: seq<Bridge>, a: string, c: string)
    requires Exclusive(bs)
    ensures Exclusive(Without(bs, a, c))
  {
    WithoutSubsequence(bs, a, c);
    var w := Without(bs, a, c);
    var f := WithoutIndex(bs, a, c);
    forall i, j | 0 <= i < j < |w|
      ensures w[i].from != w[j].from && w[i].from != w[j].to && w[i].to != w[j].from && w[i].to != w[j].to
    {
      assert w[i] == bs[f[i]] && w[j] == bs[f[j]];
    }
  }

  /** The positions in `bs` of the records Without keeps, in increasing
      order. */
  function WithoutIndex(bs: seq<Bridge>, a: string, c: string): seq<nat> {
    if bs == [] then []
    else WithoutIndex(bs[..|bs| - 1], a, c) + (if Joins(bs[|bs| - 1], a, c) then [] else [|bs| - 1])
  }

  lemma {:induction false} WithoutSubsequence(bs: seq<Bridge>, a: string, c: string)
    ensures var w, f := Without(bs, a, c), WithoutIndex(bs, a, c);
      && |f| == |w|
      && (forall i :: 0 <= i < |f| ==> f[i] < |bs| && w[i] == bs[f[i]])
      && (forall i, j :: 0 <= i < j < |f| ==> f[i] < f[j])
  {
    if bs != [] {
      WithoutSubsequence(bs[..|bs| - 1], a, c);
    }
  }

  // ---------------------------------------------------------------------
  // Adding.

  /** What add_bridge promises: a bridge is added exactly when the pair is
      not already bridged, neither system is in use, the distance can be
      computed and, when validating, is within range; the new list is the
      old one with exactly that record appended. Every refusal leaves the
      list unchanged. */
  lemma AddBridgeCorrect(g: Option<Network>, bs: seq<Bridge>, a: string, c: string, active: bool, validate: bool)
    ensures match AddBridge(g, bs, a, c, active, validate)
      case Err(e) =>
        && !Connected(bs, a, c) && a !in UsedSystems(bs) && c !in UsedSystems(bs)
        && (g.None? <==> e == GraphNotSet)
        && (g.Some? ==> Distance(g.value, a, c) == Err(e))
      case Ok((Added, bs')) =>
        && !Connected(bs, a, c) && a !in UsedSystems(bs) && c !in UsedSystems(bs)
        && g.Some? && Distance(g.value, a, c).Ok?
        && (validate ==> WithinRange(Distance(g.value, a, c).value))
        && bs' == bs + [Bridge(a, c, Distance(g.value, a, c).value, active)]
      case Ok((AlreadyExists, bs')) => Connected(bs, a, c) && bs' == bs
      case Ok((SystemInUse(s), bs')) =>
        && !Connected(bs, a, c) && s in UsedSystems(bs) && bs' == bs
        && (s == a || (s == c && a !in UsedSystems(bs)))
      case Ok((TooFar(d), bs')) =>
        && validate && g.Some? && Distance(g.value, a, c) == Ok(d) && !WithinRange(d) && bs' == bs
  {
  }

  /** add_bridge keeps "no system is an endpoint of two bridges". */
  lemma AddBridgeExclusive(g: Option<Network>, bs: seq<Bridge>, a: string, c: string, active: bool, validate: bool)
    requires Exclusive(bs)
    requires AddBridge(g, bs, a, c, active, validate).Ok?
    ensures Exclusive(AddBridge(g, bs, a, c, active, validate).value.1)
  {
    var bs' := AddBridge(g, bs, a, c, active, validate).value.1;
    if bs' != bs {
      var nb := bs'[|bs|];
      assert bs' == bs + [nb] && nb.from == a && nb.to == c;
      forall i | 0 <= i < |bs| ensures !Touches(bs[i], a) && !Touches(bs[i], c) {
        UsedSystemsMeans(bs, a);
        UsedSystemsMeans(bs, c);
      }
      forall i, j | 0 <= i < j < |bs'|
        ensures bs'[i].from != bs'[j].from && bs'[i].from != bs'[j].to && bs'[i].to != bs'[j].from && bs'[i].to != bs'[j].to
      {
        assert bs'[i] == bs[i];
        if j < |bs| {
          assert bs'[j] == bs[j];
        }
      }
    }
  }
}
