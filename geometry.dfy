/** Values shared by the curve-grouping and polygon-building nodes.

    Vertex identities are a type parameter `V` with decidable equality: the
    model never looks at coordinates, only at whether two endpoints are the
    same vertex. Host geometry (Dynamo's Line, Polygon, PolyCurve) is kept
    as uninterpreted constructors that record what they were built from. */
module Geometry {

  /** A host curve, seen through the identities of its two endpoints.
      `handle` tells apart distinct curve objects that share endpoints. */
  datatype Curve<V> = Curve(handle: nat, start: V, end: V)

  /** An edge of a polygon assembled by the external graph library. */
  datatype Edge<V> = Edge(startVertex: V, endVertex: V)

  /** A polygon or open chain as the external graph library hands it back. */
  datatype GraphPolygon<V> = GraphPolygon(vertices: seq<V>, edges: seq<Edge<V>>, isClosed: bool)

  /** Host objects built for the output, named after the host constructors. */
  datatype Line<V> = LineByStartPointEndPoint(start: V, end: V)
  datatype Polygon<V> = PolygonByPoints(points: seq<V>)
  datatype PolyCurve<V> =
    | PolyCurveByJoinedCurves(curves: seq<Curve<V>>)
    | PolyCurveByPoints(points: seq<V>)

  /** The exceptions the nodes can raise. */
  datatype Error =
    | ArgumentNull   // ArgumentNullException on a null list
    | TooFewItems    // ArgumentException: "Needs 2 or more lines"
    | NoOtherCurve   // First() on an empty filter while walking a chain
    | EmptyGroup     // Last() or First() on a group with no curve
    | NoEdges        // First() on the edges of an open polygon without edges

  /** A list argument that may be null. */
  datatype Option<T> = None | Some(value: T)

  datatype Result<T> = Ok(value: T) | Err(error: Error) {
    predicate IsFailure() { Err? }

    function PropagateFailure<U>(): Result<U>
      requires Err?
    {
      Err(error)
    }

    function Extract(): T
      requires Ok?
    {
      value
    }
  }

  /** The host line through the two ends of an edge. */
  function LineOf<V>(e: Edge<V>): Line<V>
  {
    LineByStartPointEndPoint(e.startVertex, e.endVertex)
  }

  /** An open assembled polygon with no edge: the sorting loops fail on it. */
  predicate OpenWithoutEdges<V>(g: GraphPolygon<V>)
  {
    !g.isClosed && g.edges == []
  }

  /** Reference definition of the polygon bucket: one host polygon through
      the vertices of each closed group, in group order. */
  function ClosedPolygons<V>(groups: seq<GraphPolygon<V>>): seq<Polygon<V>>
  {
    if groups == [] then []
    else
      (if groups[0].isClosed then [PolygonByPoints(groups[0].vertices)] else [])
      + ClosedPolygons(groups[1..])
  }

  /** ClosedPolygons keeps every closed group and nothing else. */
  lemma {:induction false} ClosedPolygonsMembers<V>(groups: seq<GraphPolygon<V>>)
    ensures forall p :: p in ClosedPolygons(groups) ==>
      exists i :: 0 <= i < |groups| && groups[i].isClosed && p == PolygonByPoints(groups[i].vertices)
    ensures forall i :: 0 <= i < |groups| && groups[i].isClosed ==>
      PolygonByPoints(groups[i].vertices) in ClosedPolygons(groups)
  {
    if groups != [] {
      ClosedPolygonsMembers(groups[1..]);
      forall p | p in ClosedPolygons(groups)
        ensures exists i :: 0 <= i < |groups| && groups[i].isClosed && p == PolygonByPoints(groups[i].vertices)
      {
        if !(groups[0].isClosed && p == PolygonByPoints(groups[0].vertices)) {
          assert p in ClosedPolygons(groups[1..]);
          var j :| 0 <= j < |groups[1..]| && groups[1..][j].isClosed && p == PolygonByPoints(groups[1..][j].vertices);
          assert groups[j + 1] == groups[1..][j];
        }
      }
      forall i | 0 <= i < |groups| && groups[i].isClosed
        ensures PolygonByPoints(groups[i].vertices) in ClosedPolygons(groups)
      {
        if i > 0 {
          assert groups[1..][i - 1] == groups[i];
        }
      }
    }
  }

  /** ClosedPolygons distributes over concatenation, so a left-to-right loop
      can build it one group at a time. */
  lemma {:induction false} ClosedPolygonsAppend<V>(a: seq<GraphPolygon<V>>, b: seq<GraphPolygon<V>>)
    ensures ClosedPolygons(a + b) == ClosedPolygons(a) + ClosedPolygons(b)
  {
    if a != [] {
      assert (a + b)[1..] == a[1..] + b;
      ClosedPolygonsAppend(a[1..], b);
    } else {
      assert a + b == b;
    }
  }
}
