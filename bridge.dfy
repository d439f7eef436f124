/** A worked input on which `Curves.GroupCurves` succeeds yet drops a curve:
    two chains 1-10-2 and 3-20-4 joined by a bridge 10-20 listed last. The
    bridge's ends have three curves each, so neither seeds a group, and each
    walk through them leaves by the first other listed curve, which is the
    chain's own second curve. The bridge lands in no group, so it is neither
    in a polycurve nor ungrouped. */
module Bridge {
  import opened Geometry
  import opened Incidence
  import opened Grouping

  const C0: Curve<int> := Curve(0, 1, 10)
  const C1: Curve<int> := Curve(1, 10, 2)
  const C2: Curve<int> := Curve(2, 3, 20)
  const C3: Curve<int> := Curve(3, 20, 4)
  const C4: Curve<int> := Curve(4, 10, 20)

  /** The curves in input order, written as one append per curve. */
  function Bridged(): seq<Curve<int>>
  {
    [C0] + [C1] + [C2] + [C3] + [C4]
  }

  /** The curves of `c` listed at `v`: once per endpoint equal to `v`. */
  function At(c: Curve<int>, v: int): seq<Curve<int>>
  {
    (if c.start == v then [c] else []) + (if c.end == v then [c] else [])
  }

  /** Its keys, in insertion order: the bridge adds none. */
  lemma BridgedKeys()
    ensures InsertionOrder(Bridged()) == [1, 10, 2, 3, 20, 4]
  {
    assert [C0] == [] + [C0];
    OrderSnoc([], C0);
    assert InsertionOrder([C0]) == [1, 10];
    OrderSnoc([C0], C1);
    assert InsertionOrder([C0] + [C1]) == [1, 10, 2];
    OrderSnoc([C0] + [C1], C2);
    assert InsertionOrder([C0] + [C1] + [C2]) == [1, 10, 2, 3, 20];
    OrderSnoc([C0] + [C1] + [C2], C3);
    assert InsertionOrder([C0] + [C1] + [C2] + [C3]) == [1, 10, 2, 3, 20, 4];
    OrderSnoc([C0] + [C1] + [C2] + [C3], C4);
    assert 10 in [1, 10, 2, 3, 20, 4] && 20 in [1, 10, 2, 3, 20, 4];
  }

  /** InsertionOrder, unfolded on a last curve. */
  lemma OrderSnoc(cs: seq<Curve<int>>, c: Curve<int>)
    ensures InsertionOrder(cs + [c]) == AddKey(AddKey(InsertionOrder(cs), c.start), c.end)
  {
    assert (cs + [c])[..|cs|] == cs;
  }

  /** The list at `v`, curve by curve in input order. */
  lemma BridgedIncident(v: int)
    ensures Incident(Bridged(), v) == At(C0, v) + At(C1, v) + At(C2, v) + At(C3, v) + At(C4, v)
  {
    assert [C0] == [] + [C0];
    IncidentSnoc([], C0, v);
    IncidentSnoc([C0], C1, v);
    IncidentSnoc([C0] + [C1], C2, v);
    IncidentSnoc([C0] + [C1] + [C2], C3, v);
    IncidentSnoc([C0] + [C1] + [C2] + [C3], C4, v);
  }

  /** The lists of the map: vertices 10 and 20 have three curves. */
  lemma BridgedLists()
    ensures Incident(Bridged(), 1) == [C0] && Incident(Bridged(), 10) == [C0, C1, C4] && Incident(Bridged(), 2) == [C1]
    ensures Incident(Bridged(), 3) == [C2] && Incident(Bridged(), 20) == [C2, C3, C4] && Incident(Bridged(), 4) == [C3]
  {
    BridgedIncident(1);
    BridgedIncident(10);
    BridgedIncident(2);
    BridgedIncident(3);
    BridgedIncident(20);
    BridgedIncident(4);
  }

  /** The incidence map, written out: vertices 10 and 20 have three curves. */
  function BGraph(): Graph<int>
  {
    map[1 := [C0], 10 := [C0, C1, C4], 2 := [C1], 3 := [C2], 20 := [C2, C3, C4], 4 := [C3]]
  }

  lemma BridgedGraph()
    ensures IncidenceMap(Bridged()) == BGraph()
  {
    BridgedKeys();
    BridgedLists();
    BGraphOf(Bridged());
  }

  /** Any curves with this key order and these lists have BGraph as their
      incidence map. */
  lemma BGraphOf(cs: seq<Curve<int>>)
    requires InsertionOrder(cs) == [1, 10, 2, 3, 20, 4]
    requires Incident(cs, 1) == [C0] && Incident(cs, 10) == [C0, C1, C4] && Incident(cs, 2) == [C1]
    requires Incident(cs, 3) == [C2] && Incident(cs, 20) == [C2, C3, C4] && Incident(cs, 4) == [C3]
    ensures IncidenceMap(cs) == BGraph()
  {
    assert Tracks(BGraph(), [1, 10, 2, 3, 20, 4], cs);
    TracksAll(BGraph(), [1, 10, 2, 3, 20, 4], cs);
  }

  /** The visited map after the first seed, and after the second. */
  function Visited1(): map<int, nat>
  {
    map[1 := 0, 10 := 0, 2 := 0]
  }

  function Visited2(): map<int, nat>
  {
    map[1 := 0, 10 := 0, 2 := 0, 3 := 1, 20 := 1, 4 := 1]
  }

  lemma BGraphClosed()
    ensures Closed(BGraph())
  {
  }

  /** The walk from seed 1 goes along C0 to vertex 10, leaves it by C1, the
      first listed curve other than C0, and stops at 2. */
  lemma FirstWalk()
    ensures Closed(BGraph())
    ensures Walk(BGraph(), 0, map[1 := 0], [], C0, 10) == Ok(Walker(Visited1(), [C0, C1], C1))
  {
    BGraphClosed();
    ChainWalk(BGraph(), 0, map[1 := 0], C0, C1, 10, 2);
    assert map[1 := 0][10 := 0][2 := 0] == Visited1();
  }

  /** On any graph, a walk along `a` into a vertex `mid` listing `[a, b, x]`
      leaves by `b` and stops at its far end `last`, which lists `b` alone. */
  lemma ChainWalk(g: Graph<int>, gid: nat, visited: map<int, nat>, a: Curve<int>, b: Curve<int>, mid: int, last: int)
    requires Closed(g) && mid in g && last in g && |g[mid]| == 3 && g[mid][0] == a && g[mid][1] == b && a != b
    requires g[last] == [b] && Other(b, mid) == last
    requires mid !in visited && last !in visited && mid != last
    ensures Walk(g, gid, visited, [], a, mid) == Ok(Walker(visited[mid := gid][last := gid], [a, b], b))
  {
    assert FirstOther(g[mid], a) == Some(b) by {
      assert g[mid][1..][0] == b;
    }
    var m := visited[mid := gid];
    assert last !in m;
    assert [] + [a] == [a] && [a] + [b] == [a, b];
    assert Walk(g, gid, m, [a], b, last) == Ok(Walker(m[last := gid], [a, b], b));
  }

  /** Seed 1 collects the group [C0, C1]. */
  lemma FirstGroup()
    ensures Closed(BGraph())
    ensures Spokes(BGraph(), 1, 0, map[1 := 0], [], [C0]) == Ok(Seeded(Visited1(), [C0, C1]))
  {
    FirstWalk();
    assert [C0][1..] == [];
  }

  /** The walk from seed 3 goes along C2 to vertex 20, leaves it by C3, and
      stops at 4. */
  lemma SecondWalk()
    ensures Closed(BGraph())
    ensures Walk(BGraph(), 1, Visited1()[3 := 1], [], C2, 20) == Ok(Walker(Visited2(), [C2, C3], C3))
  {
    BGraphClosed();
    ChainWalk(BGraph(), 1, Visited1()[3 := 1], C2, C3, 20, 4);
    assert Visited1()[3 := 1][20 := 1][4 := 1] == Visited2();
  }

  /** Seed 3 collects the group [C2, C3]. */
  lemma SecondGroup()
    ensures Closed(BGraph())
    ensures Spokes(BGraph(), 3, 1, Visited1()[3 := 1], [], [C2]) == Ok(Seeded(Visited2(), [C2, C3]))
  {
    SecondWalk();
    assert [C2][1..] == [];
  }

  /** Keys 20 and 4 were visited by the second walk and are skipped. */
  lemma LastKeys()
    ensures Closed(BGraph())
    ensures Pass(BGraph(), [20, 4], Visited2(), [[C0, C1], [C2, C3]]) == Ok(Tables(Visited2(), [[C0, C1], [C2, C3]]))
  {
    SecondWalk();
    assert [20, 4][1..] == [4] && [4][1..] == [];
  }

  /** Key 3 seeds the second group. */
  lemma MiddleKeys()
    ensures Closed(BGraph())
    ensures Pass(BGraph(), [3, 20, 4], Visited1(), [[C0, C1]]) == Ok(Tables(Visited2(), [[C0, C1], [C2, C3]]))
  {
    SecondGroup();
    LastKeys();
    assert [3, 20, 4][1..] == [20, 4];
    assert |[[C0, C1]]| == 1 && [[C0, C1]] + [[C2, C3]] == [[C0, C1], [C2, C3]];
  }

  /** Keys 10 and 2 were visited by the first walk and are skipped; vertex
      10 is not a seed anyway, having three curves. */
  lemma SkippedKeys()
    ensures Closed(BGraph())
    ensures Pass(BGraph(), [10, 2, 3, 20, 4], Visited1(), [[C0, C1]]) == Ok(Tables(Visited2(), [[C0, C1], [C2, C3]]))
  {
    MiddleKeys();
    assert [10, 2, 3, 20, 4][1..] == [2, 3, 20, 4] && [2, 3, 20, 4][1..] == [3, 20, 4];
  }

  /** The pass over the keys makes two groups, neither holding the bridge. */
  lemma BridgedPass()
    ensures Closed(BGraph())
    ensures Pass(BGraph(), [1, 10, 2, 3, 20, 4], map[], []) == Ok(Tables(Visited2(), [[C0, C1], [C2, C3]]))
  {
    FirstKey();
    SkippedKeys();
  }

  /** Key 1 seeds the first group. */
  lemma FirstKey()
    ensures Closed(BGraph())
    ensures Pass(BGraph(), [1, 10, 2, 3, 20, 4], map[], []) == Pass(BGraph(), [10, 2, 3, 20, 4], Visited1(), [[C0, C1]])
  {
    FirstGroup();
    var g := BGraph();
    assert [1, 10, 2, 3, 20, 4][1..] == [10, 2, 3, 20, 4];
    assert map[][1 := 0] == map[1 := 0] && [] + [[C0, C1]] == [[C0, C1]];
    assert 1 in g && IsSeed(g, map[], 1) && g[1] == [C0];
    assert Pass(g, [1, 10, 2, 3, 20, 4], map[], []) == Pass(g, [10, 2, 3, 20, 4], Visited1(), [[C0, C1]]);
  }

  /** Both groups have two curves, so both become polycurves. */
  lemma BridgedSplit()
    ensures SplitGroups([[C0, C1], [C2, C3]])
         == Ok(Grouped([PolyCurveByJoinedCurves([C0, C1]), PolyCurveByJoinedCurves([C2, C3])], []))
  {
    var grouped := [[C0, C1], [C2, C3]];
    var p0, p1 := PolyCurveByJoinedCurves([C0, C1]), PolyCurveByJoinedCurves([C2, C3]);
    assert grouped[..1] == [[C0, C1]] && grouped[..1][..0] == [];
    assert SplitGroups(grouped[..1][..0]) == Ok(Grouped([], []));
    assert [] + [p0] == [p0] && [p0] + [p1] == [p0, p1];
    assert SplitGroups(grouped[..1]) == Ok(Grouped([p0], []));
  }

  /** Any input with these keys and this map gives the two polycurves. */
  lemma SpecOf(cs: seq<Curve<int>>)
    requires |cs| >= 2
    requires InsertionOrder(cs) == [1, 10, 2, 3, 20, 4] && IncidenceMap(cs) == BGraph()
    ensures GroupCurvesSpec(Some(cs))
         == Ok(Grouped([PolyCurveByJoinedCurves([C0, C1]), PolyCurveByJoinedCurves([C2, C3])], []))
  {
    BridgedPass();
    BridgedSplit();
  }

  /** What the node returns on the bridged chains. */
  lemma BridgedSpec()
    ensures GroupCurvesSpec(Some(Bridged()))
         == Ok(Grouped([PolyCurveByJoinedCurves([C0, C1]), PolyCurveByJoinedCurves([C2, C3])], []))
  {
    BridgedKeys();
    BridgedGraph();
    SpecOf(Bridged());
  }

  /** On two chains joined by a bridge listed last, the node succeeds with
      one polycurve per chain and nothing ungrouped: the bridge C4, an input
      curve, is in no output. */
  lemma BridgeDropped()
    ensures GroupCurvesSpec(Some(Bridged()))
         == Ok(Grouped([PolyCurveByJoinedCurves([C0, C1]), PolyCurveByJoinedCurves([C2, C3])], []))
    ensures C4 in Bridged()
    ensures var out := GroupCurvesSpec(Some(Bridged())).value;
      C4 !in out.ungrouped && forall p :: p in out.polyCurves ==> C4 !in p.curves
  {
    BridgedSpec();
    assert Bridged()[4] == C4;
  }
}
