/** The node that turns a list of lines into host polygons, polycurves and
    lines (Curve.BuildPolygons). As in CurvesPolygons, the graph library's
    assembly is external and arrives as a parameter. The node sorts each
    assembled polygon into one of three buckets: a closed one becomes a
    host polygon, an open chain of several edges becomes a polycurve
    through its vertices, and a single edge becomes a line. */
module CurvePolygons {
  import opened Geometry
  import CurvesPolygons

  /** The three outputs, "polygons", "polyCurves" and "lines". */
  datatype Bucketed<V> = Bucketed(polygons: seq<Polygon<V>>, polyCurves: seq<PolyCurve<V>>, lines: seq<Line<V>>)

  /** The sorting loop, one assembled polygon at a time; `First()` on the
      edges of an open polygon without edges fails. */
  function Bucket<V>(groups: seq<GraphPolygon<V>>): Result<Bucketed<V>>
  {
    if groups == [] then Ok(Bucketed([], [], []))
    else
      var n := |groups| - 1;
      var rest :- Bucket(groups[..n]);
      var g := groups[n];
      if g.isClosed then Ok(Bucketed(rest.polygons + [PolygonByPoints(g.vertices)], rest.polyCurves, rest.lines))
      else if |g.edges| > 1 then Ok(Bucketed(rest.polygons, rest.polyCurves + [PolyCurveByPoints(g.vertices)], rest.lines))
      else if g.edges == [] then Err(NoEdges)
      else Ok(Bucketed(rest.polygons, rest.polyCurves, rest.lines + [LineOf(g.edges[0])]))
  }

  /** What the node returns for a (possibly null) list of lines, given the
      polygons the graph library assembles from them. */
  function BuildPolygonsSpec<V>(lines: Option<seq<Line<V>>>, assembled: seq<GraphPolygon<V>>): Result<Bucketed<V>>
  {
    if lines.None? then Err(ArgumentNull)
    else if |lines.value| < 2 then Err(TooFewItems)
    else Bucket(assembled)
  }

  // ---------------------------------------------------------------------
  // The node

  /** Curve.BuildPolygons: the argument checks, then the loop that sorts
      the assembled polygons into the three output lists. */
  method BuildPolygons<V>(lines: Option<seq<Line<V>>>, assembled: seq<GraphPolygon<V>>) returns (r: Result<Bucketed<V>>)
    ensures lines.None? ==> r == Err(ArgumentNull)
    ensures lines.Some? && |lines.value| < 2 ==> r == Err(TooFewItems)
    ensures r == BuildPolygonsSpec(lines, assembled)
  {
    if lines.None? {
      return Err(ArgumentNull);
    }
    if |lines.value| < 2 {
      return Err(TooFewItems);
    }
    var polygons: seq<Polygon<V>> := [];
    var polyCurves: seq<PolyCurve<V>> := [];
    var single: seq<Line<V>> := [];
    for i := 0 to |assembled|
      invariant Bucket(assembled[..i]) == Ok(Bucketed(polygons, polyCurves, single))
    {
      var g := assembled[i];
      assert assembled[..i + 1][..i] == assembled[..i] && assembled[..i + 1][i] == g;
      if g.isClosed {
        polygons := polygons + [PolygonByPoints(g.vertices)];
      } else if |g.edges| > 1 {
        polyCurves := polyCurves + [PolyCurveByPoints(g.vertices)];
      } else if g.edges == [] {
        BucketFails(assembled);
        assert OpenWithoutEdges(assembled[i]);
        return Err(NoEdges);
      } else {
        single := single + [LineByStartPointEndPoint(g.edges[0].startVertex, g.edges[0].endVertex)];
      }
    }
    assert assembled[..|assembled|] == assembled;
    r := Ok(Bucketed(polygons, polyCurves, single));
  }

  // ---------------------------------------------------------------------
  // Properties

  /** The sort fails exactly when some assembled polygon is open and has no
      edge, and then with the error of `First()` on its edges. */
  lemma {:induction false} BucketFails<V>(groups: seq<GraphPolygon<V>>)
    ensures Bucket(groups).Err? <==> exists i :: 0 <= i < |groups| && OpenWithoutEdges(groups[i])
    ensures Bucket(groups).Err? ==> Bucket(groups).error == NoEdges
  {
    if groups != [] {
      var n := |groups| - 1;
      BucketFails(groups[..n]);
      if exists i :: 0 <= i < n && OpenWithoutEdges(groups[..n][i]) {
        var i :| 0 <= i < n && OpenWithoutEdges(groups[..n][i]);
        assert OpenWithoutEdges(groups[i]);
      }
      if exists i :: 0 <= i < |groups| && OpenWithoutEdges(groups[i]) {
        var i :| 0 <= i < |groups| && OpenWithoutEdges(groups[i]);
        if i < n {
          assert OpenWithoutEdges(groups[..n][i]);
        }
      }
    }
  }

  /** When the sort succeeds, every assembled polygon lands in exactly one
      bucket, and "polygons" is the closed ones, in order. */
  lemma {:induction false} BucketCounts<V>(groups: seq<GraphPolygon<V>>)
    requires Bucket(groups).Ok?
    ensures |Bucket(groups).value.polygons| + |Bucket(groups).value.polyCurves| + |Bucket(groups).value.lines| == |groups|
    ensures Bucket(groups).value.polygons == ClosedPolygons(groups)
  {
    if groups != [] {
      var n := |groups| - 1;
      var g := groups[n];
      BucketCounts(groups[..n]);
      assert groups == groups[..n] + [g];
      ClosedPolygonsAppend(groups[..n], [g]);
      assert [g][1..] == [];
    }
  }

  /** An open chain of several edges: the polycurve bucket's kind. */
  predicate IsChain<V>(g: GraphPolygon<V>)
  {
    !g.isClosed && |g.edges| > 1
  }

  /** An open polygon of one edge: the line bucket's kind. */
  predicate IsSingle<V>(g: GraphPolygon<V>)
  {
    !g.isClosed && |g.edges| == 1
  }

  /** Reference definition of the polycurve bucket: one polycurve through
      the vertices of each open chain of several edges, in group order. */
  function ChainCurves<V>(groups: seq<GraphPolygon<V>>): seq<PolyCurve<V>>
  {
    if groups == [] then []
    else (if IsChain(groups[0]) then [PolyCurveByPoints(groups[0].vertices)] else []) + ChainCurves(groups[1..])
  }

  /** Reference definition of the line bucket: the line of the only edge of
      each open polygon with one edge, in group order. */
  function SingleLines<V>(groups: seq<GraphPolygon<V>>): seq<Line<V>>
  {
    if groups == [] then []
    else (if IsSingle(groups[0]) then [LineOf(groups[0].edges[0])] else []) + SingleLines(groups[1..])
  }

  /** ChainCurves distributes over concatenation. */
  lemma {:induction false} ChainCurvesAppend<V>(a: seq<GraphPolygon<V>>, b: seq<GraphPolygon<V>>)
    ensures ChainCurves(a + b) == ChainCurves(a) + ChainCurves(b)
  {
    if a != [] {
      assert (a + b)[1..] == a[1..] + b;
      ChainCurvesAppend(a[1..], b);
    } else {
      assert a + b == b;
    }
  }

  /** SingleLines distributes over concatenation. */
  lemma {:induction false} SingleLinesAppend<V>(a: seq<GraphPolygon<V>>, b: seq<GraphPolygon<V>>)
    ensures SingleLines(a + b) == SingleLines(a) + SingleLines(b)
  {
    if a != [] {
      assert (a + b)[1..] == a[1..] + b;
      SingleLinesAppend(a[1..], b);
    } else {
      assert a + b == b;
    }
  }

  /** The polycurve bucket, built one group at a time, is ChainCurves. */
  lemma {:induction false} BucketChains<V>(groups: seq<GraphPolygon<V>>)
    requires Bucket(groups).Ok?
    ensures Bucket(groups).value.polyCurves == ChainCurves(groups)
  {
    if groups != [] {
      var n := |groups| - 1;
      var g := groups[n];
      BucketChains(groups[..n]);
      assert groups == groups[..n] + [g];
      ChainCurvesAppend(groups[..n], [g]);
      assert [g][1..] == [];
    }
  }

  /** The line bucket, built one group at a time, is SingleLines. */
  lemma {:induction false} BucketSingles<V>(groups: seq<GraphPolygon<V>>)
    requires Bucket(groups).Ok?
    ensures Bucket(groups).value.lines == SingleLines(groups)
  {
    if groups != [] {
      var n := |groups| - 1;
      var g := groups[n];
      BucketSingles(groups[..n]);
      assert groups == groups[..n] + [g];
      SingleLinesAppend(groups[..n], [g]);
      assert [g][1..] == [];
    }
  }

  /** ChainCurves holds a polycurve for every open chain and nothing else. */
  lemma {:induction false} ChainCurvesMembers<V>(groups: seq<GraphPolygon<V>>)
    ensures forall p :: p in ChainCurves(groups) <==>
      exists i :: 0 <= i < |groups| && IsChain(groups[i]) && p == PolyCurveByPoints(groups[i].vertices)
  {
    if groups != [] {
      ChainCurvesMembers(groups[1..]);
      forall p ensures p in ChainCurves(groups) <==>
        exists i :: 0 <= i < |groups| && IsChain(groups[i]) && p == PolyCurveByPoints(groups[i].vertices)
      {
        if p in ChainCurves(groups[1..]) {
          var j :| 0 <= j < |groups[1..]| && IsChain(groups[1..][j]) && p == PolyCurveByPoints(groups[1..][j].vertices);
          assert groups[j + 1] == groups[1..][j];
        }
        if exists i :: 0 <= i < |groups| && IsChain(groups[i]) && p == PolyCurveByPoints(groups[i].vertices) {
          var i :| 0 <= i < |groups| && IsChain(groups[i]) && p == PolyCurveByPoints(groups[i].vertices);
          if i > 0 {
            assert groups[1..][i - 1] == groups[i];
          }
        }
      }
    }
  }

  /** SingleLines holds the line of every one-edge open polygon and nothing else. */
  lemma {:induction false} SingleLinesMembers<V>(groups: seq<GraphPolygon<V>>)
    ensures forall l :: l in SingleLines(groups) <==>
      exists i :: 0 <= i < |groups| && IsSingle(groups[i]) && l == LineOf(groups[i].edges[0])
  {
    if groups != [] {
      SingleLinesMembers(groups[1..]);
      forall l ensures l in SingleLines(groups) <==>
        exists i :: 0 <= i < |groups| && IsSingle(groups[i]) && l == LineOf(groups[i].edges[0])
      {
        if l in SingleLines(groups[1..]) {
          var j :| 0 <= j < |groups[1..]| && IsSingle(groups[1..][j]) && l == LineOf(groups[1..][j].edges[0]);
          assert groups[j + 1] == groups[1..][j];
        }
        if exists i :: 0 <= i < |groups| && IsSingle(groups[i]) && l == LineOf(groups[i].edges[0]) {
          var i :| 0 <= i < |groups| && IsSingle(groups[i]) && l == LineOf(groups[i].edges[0]);
          if i > 0 {
            assert groups[1..][i - 1] == groups[i];
          }
        }
      }
    }
  }

  /** When the sort succeeds, "polyCurves" holds one polycurve through the
      vertices of each open chain of several edges, in group order, and
      nothing else. */
  lemma BucketPolyCurves<V>(groups: seq<GraphPolygon<V>>)
    requires Bucket(groups).Ok?
    ensures Bucket(groups).value.polyCurves == ChainCurves(groups)
    ensures forall p :: p in Bucket(groups).value.polyCurves <==>
      exists i :: 0 <= i < |groups| && IsChain(groups[i]) && p == PolyCurveByPoints(groups[i].vertices)
  {
    BucketChains(groups);
    ChainCurvesMembers(groups);
  }

  /** When the sort succeeds, "lines" holds the line of the only edge of each
      open polygon with one edge, in group order, and nothing else. */
  lemma BucketLines<V>(groups: seq<GraphPolygon<V>>)
    requires Bucket(groups).Ok?
    ensures Bucket(groups).value.lines == SingleLines(groups)
    ensures forall l :: l in Bucket(groups).value.lines <==>
      exists i :: 0 <= i < |groups| && IsSingle(groups[i]) && l == LineOf(groups[i].edges[0])
  {
    BucketSingles(groups);
    SingleLinesMembers(groups);
  }

  /** The two BuildPolygons nodes agree on the same assembled polygons:
      they fail on the same inputs, return the same host polygons, and
      every line of this node is one of the other node's ungrouped lines. */
  lemma NodesAgree<V>(input: seq<Line<V>>, assembled: seq<GraphPolygon<V>>)
    requires |input| >= 2
    ensures BuildPolygonsSpec(Some(input), assembled).Err? <==> CurvesPolygons.BuildPolygonsSpec(Some(input), assembled).Err?
    ensures BuildPolygonsSpec(Some(input), assembled).Ok? ==>
      && BuildPolygonsSpec(Some(input), assembled).value.polygons == CurvesPolygons.BuildPolygonsSpec(Some(input), assembled).value.polygons
      && forall l :: l in BuildPolygonsSpec(Some(input), assembled).value.lines ==>
           l in CurvesPolygons.BuildPolygonsSpec(Some(input), assembled).value.ungrouped
  {
    BucketFails(assembled);
    CurvesPolygons.SortedFails(assembled);
    if Bucket(assembled).Ok? {
      BucketCounts(assembled);
      CurvesPolygons.SortedPolygons(assembled);
      CurvesPolygons.SortedUngrouped(assembled);
      SingleLinesOpen(assembled);
    }
  }

  /** Each line of this node is the line of an open polygon's edge. */
  lemma SingleLinesOpen<V>(groups: seq<GraphPolygon<V>>)
    requires Bucket(groups).Ok?
    ensures forall l :: l in Bucket(groups).value.lines ==> l in CurvesPolygons.OpenLines(groups)
  {
    forall l | l in Bucket(groups).value.lines ensures l in CurvesPolygons.OpenLines(groups) {
      SingleLineOpen(groups, l);
    }
  }

  lemma SingleLineOpen<V>(groups: seq<GraphPolygon<V>>, l: Line<V>)
    requires Bucket(groups).Ok? && l in Bucket(groups).value.lines
    ensures l in CurvesPolygons.OpenLines(groups)
  {
    BucketLines(groups);
    assert exists i :: 0 <= i < |groups| && IsSingle(groups[i]) && l == LineOf(groups[i].edges[0]);
    var i :| 0 <= i < |groups| && IsSingle(groups[i]) && l == LineOf(groups[i].edges[0]);
    OpenLinesHold(groups, i);
    assert groups[i].edges[0] in groups[i].edges;
  }

  /** The lines of every edge of an open polygon are in OpenLines. */
  lemma {:induction false} OpenLinesHold<V>(groups: seq<GraphPolygon<V>>, i: nat)
    requires i < |groups| && !groups[i].isClosed
    ensures forall e :: e in groups[i].edges ==> LineOf(e) in CurvesPolygons.OpenLines(groups)
  {
    if i > 0 {
      assert groups[1..][i - 1] == groups[i];
      OpenLinesHold(groups[1..], i - 1);
    } else {
      forall e | e in groups[0].edges ensures LineOf(e) in CurvesPolygons.EdgeLines(groups[0].edges) {
        var k :| 0 <= k < |groups[0].edges| && groups[0].edges[k] == e;
        assert CurvesPolygons.EdgeLines(groups[0].edges)[k] == LineOf(e);
      }
    }
  }
}
