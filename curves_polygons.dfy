/** The node that turns a list of lines into host polygons and loose lines
    (Curves.BuildPolygons). The graph library assembles the lines into
    polygons and open chains; that step is external, so its result is a
    parameter here. The node then sorts what it gets back: a closed polygon
    becomes a host polygon, and every edge of an open chain becomes a host
    line. */
module CurvesPolygons {
  import opened Geometry

  /** The two outputs, "polygons" and "ungrouped". */
  datatype Built<V> = Built(polygons: seq<Polygon<V>>, ungrouped: seq<Line<V>>)

  /** One host line per edge, in edge order. */
  function EdgeLines<V>(edges: seq<Edge<V>>): (r: seq<Line<V>>)
    ensures |r| == |edges|
    ensures forall i :: 0 <= i < |edges| ==> r[i] == LineByStartPointEndPoint(edges[i].startVertex, edges[i].endVertex)
  {
    seq(|edges|, i requires 0 <= i < |edges| => LineOf(edges[i]))
  }

  /** The sorting loop over the assembled polygons, one polygon at a time:
      a closed one gives a host polygon through its vertices, an open one
      with several edges gives a line per edge, and an open one with a
      single edge gives the line of its first edge; `First()` on an open one
      without edges fails. */
  function Sorted<V>(groups: seq<GraphPolygon<V>>): Result<Built<V>>
  {
    if groups == [] then Ok(Built([], []))
    else
      var n := |groups| - 1;
      var rest :- Sorted(groups[..n]);
      var g := groups[n];
      if g.isClosed then Ok(Built(rest.polygons + [PolygonByPoints(g.vertices)], rest.ungrouped))
      else if |g.edges| > 1 then Ok(Built(rest.polygons, rest.ungrouped + EdgeLines(g.edges)))
      else if g.edges == [] then Err(NoEdges)
      else Ok(Built(rest.polygons, rest.ungrouped + [LineOf(g.edges[0])]))
  }

  /** What the node returns for a (possibly null) list of lines, given the
      polygons the graph library assembles from them. */
  function BuildPolygonsSpec<V>(lines: Option<seq<Line<V>>>, assembled: seq<GraphPolygon<V>>): Result<Built<V>>
  {
    if lines.None? then Err(ArgumentNull)
    else if |lines.value| < 2 then Err(TooFewItems)
    else Sorted(assembled)
  }

  /** Reference definition of the "ungrouped" output: the lines of all edges
      of the open polygons, in order. */
  function OpenLines<V>(groups: seq<GraphPolygon<V>>): seq<Line<V>>
  {
    if groups == [] then []
    else (if groups[0].isClosed then [] else EdgeLines(groups[0].edges)) + OpenLines(groups[1..])
  }

  // ---------------------------------------------------------------------
  // The node

  /** Curves.BuildPolygons: the argument checks, then the loop that sorts
      the assembled polygons into the two output lists. */
  method BuildPolygons<V>(lines: Option<seq<Line<V>>>, assembled: seq<GraphPolygon<V>>) returns (r: Result<Built<V>>)
    ensures lines.None? ==> r == Err(ArgumentNull)
    ensures lines.Some? && |lines.value| < 2 ==> r == Err(TooFewItems)
    ensures r == BuildPolygonsSpec(lines, assembled)
  {
    if lines.None? {
      return Err(ArgumentNull);
    }
    if |lines.value| < 2 {
      return Err(TooFewItems);
    }
    var polygons: seq<Polygon<V>> := [];
    var ungrouped: seq<Line<V>> := [];
    for i := 0 to |assembled|
      invariant Sorted(assembled[..i]) == Ok(Built(polygons, ungrouped))
    {
      var g := assembled[i];
      assert assembled[..i + 1][..i] == assembled[..i] && assembled[..i + 1][i] == g;
      if g.isClosed {
        polygons := polygons + [PolygonByPoints(g.vertices)];
      } else if |g.edges| > 1 {
        ghost var before := ungrouped;
        for j := 0 to |g.edges|
          invariant ungrouped == before + EdgeLines(g.edges[..j])
        {
          ungrouped := ungrouped + [LineByStartPointEndPoint(g.edges[j].startVertex, g.edges[j].endVertex)];
        }
        assert g.edges[..|g.edges|] == g.edges;
      } else if g.edges == [] {
        SortedFails(assembled);
        assert OpenWithoutEdges(assembled[i]);
        return Err(NoEdges);
      } else {
        ungrouped := ungrouped + [LineByStartPointEndPoint(g.edges[0].startVertex, g.edges[0].endVertex)];
      }
    }
    assert assembled[..|assembled|] == assembled;
    r := Ok(Built(polygons, ungrouped));
  }

  // ---------------------------------------------------------------------
  // Properties

  /** The sort fails exactly when some assembled polygon is open and has no
      edge, and then with the error of `First()` on its edges. */
  lemma {:induction false} SortedFails<V>(groups: seq<GraphPolygon<V>>)
    ensures Sorted(groups).Err? <==> exists i :: 0 <= i < |groups| && OpenWithoutEdges(groups[i])
    ensures Sorted(groups).Err? ==> Sorted(groups).error == NoEdges
  {
    if groups != [] {
      var n := |groups| - 1;
      SortedFails(groups[..n]);
      if exists i :: 0 <= i < n && OpenWithoutEdges(groups[..n][i]) {
        var i :| 0 <= i < n && OpenWithoutEdges(groups[..n][i]);
        assert OpenWithoutEdges(groups[i]);
      }
      if exists i :: 0 <= i < |groups| && OpenWithoutEdges(groups[i]) {
        var i :| 0 <= i < |groups| && OpenWithoutEdges(groups[i]);
        if i < n {
          assert OpenWithoutEdges(groups[..n][i]);
        }
      }
    }
  }

  /** OpenLines distributes over concatenation. */
  lemma {:induction false} OpenLinesAppend<V>(a: seq<GraphPolygon<V>>, b: seq<GraphPolygon<V>>)
    ensures OpenLines(a + b) == OpenLines(a) + OpenLines(b)
  {
    if a != [] {
      assert (a + b)[1..] == a[1..] + b;
      OpenLinesAppend(a[1..], b);
    } else {
      assert a + b == b;
    }
  }

  /** When the sort succeeds, "polygons" holds a host polygon for each
      closed assembled polygon, in order, and nothing else. */
  lemma {:induction false} SortedPolygons<V>(groups: seq<GraphPolygon<V>>)
    requires Sorted(groups).Ok?
    ensures Sorted(groups).value.polygons == ClosedPolygons(groups)
  {
    if groups != [] {
      var n := |groups| - 1;
      var g := groups[n];
      SortedPolygons(groups[..n]);
      assert groups == groups[..n] + [g];
      ClosedPolygonsAppend(groups[..n], [g]);
      assert [g][1..] == [];
    }
  }

  /** When the sort succeeds, "ungrouped" holds the lines of every edge of
      every open assembled polygon, in order: the single-edge branch agrees
      with the several-edge branch. */
  lemma {:induction false} SortedUngrouped<V>(groups: seq<GraphPolygon<V>>)
    requires Sorted(groups).Ok?
    ensures Sorted(groups).value.ungrouped == OpenLines(groups)
  {
    if groups != [] {
      var n := |groups| - 1;
      var g := groups[n];
      SortedUngrouped(groups[..n]);
      assert groups == groups[..n] + [g];
      OpenLinesAppend(groups[..n], [g]);
      assert [g][1..] == [];
      if !g.isClosed && |g.edges| == 1 {
        assert EdgeLines(g.edges) == [LineOf(g.edges[0])];
      }
    }
  }

  /** What the node promises for a list of at least two lines: it fails
      exactly when the library hands back an open polygon without edges;
      otherwise the closed polygons become host polygons and the open ones
      their edges' lines. */
  lemma BuildPolygonsOutputs<V>(lines: seq<Line<V>>, assembled: seq<GraphPolygon<V>>)
    requires |lines| >= 2
    ensures BuildPolygonsSpec(Some(lines), assembled).Err? <==> exists i :: 0 <= i < |assembled| && OpenWithoutEdges(assembled[i])
    ensures BuildPolygonsSpec(Some(lines), assembled).Err? ==> BuildPolygonsSpec(Some(lines), assembled).error == NoEdges
    ensures BuildPolygonsSpec(Some(lines), assembled).Ok? ==>
      && BuildPolygonsSpec(Some(lines), assembled).value.polygons == ClosedPolygons(assembled)
      && BuildPolygonsSpec(Some(lines), assembled).value.ungrouped == OpenLines(assembled)
  {
    SortedFails(assembled);
    if Sorted(assembled).Ok? {
      SortedPolygons(assembled);
      SortedUngrouped(assembled);
    }
  }
}
