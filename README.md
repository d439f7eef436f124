# Curve grouping and polygon sorting in GraphicalDynamo

This project models the part of GraphicalDynamo's geometry nodes that
works on connectivity alone. It proves what those nodes compute.

- **Incidence map** (`Curves.CurvesDependency`). One pass over the input
  curves maps every endpoint vertex to the curves that start or end there,
  in input order. A curve is recorded once at its start and once at its
  end, so a curve whose two ends coincide appears twice in one list.
- **Curve grouping** (`Curves.GroupCurves`). The node checks its argument,
  then visits the map's keys in first-insertion order. Every unvisited key
  with at most two curves seeds a new group, whose id is the number of
  groups so far. From the seed the node walks along each of the seed's
  curves:
  - it marks each unvisited vertex it reaches with the seed's group id and
    adds the current curve;
  - it stops after a vertex with fewer than two curves;
  - otherwise it leaves the vertex by the first listed curve other than
    the current one, whatever the vertex's degree.
  After each walk it adds the curve it ended on, unless that curve is
  already the group's last. Groups of several curves become polycurves,
  and groups of one curve are returned as ungrouped curves.
- **Polygon sorting** (`Curves.BuildPolygons`, `Curve.BuildPolygons`). The
  nodes check their argument, then sort the polygons and open chains that
  the graph library assembled into output lists:
  - a closed polygon becomes a host polygon;
  - an open chain becomes lines, or, in `Curve.BuildPolygons`, a polycurve
    when it has several edges;
  - a lone edge becomes a line.

Vertices are a type parameter with decidable equality. Curves are records
of a handle and two endpoints. Host geometry objects are constructors that
record what they were built from. Each exception the nodes can raise is an
`Err` outcome: a null list, fewer than two items, `First()` on an empty
filter or edge list, and `Last()` or `First()` on an empty group.

Each loop of the source is a method. Each method is proved equal to a
function that describes the loop's whole run:

| method | loop | function |
|---|---|---|
| `Incidence.CurvesDependency` | `foreach` over the curves | `IncidenceMap`, `InsertionOrder` |
| `Grouping.WalkChain` | inner `while` | `Walk` |
| `Grouping.SeedGroup` | `foreach` over a seed's curves | `Spokes` |
| `Grouping.SeedPass` | `foreach` over the keys | `Pass` |
| `Grouping.SplitCurves` | final `foreach` | `SplitGroups` |
| `CurvesPolygons.BuildPolygons` | `foreach` over the assembled polygons | `Sorted` |
| `CurvePolygons.BuildPolygons` | `foreach` over the assembled polygons | `Bucket` |

Lemmas then state what those functions promise.

The code never seeds a group at a vertex of degree three or more, yet it
walks through such vertices. As a result the node can fail on a plain
T-junction: curves 1-2, 2-3 and 2-4, with vertex 2 as the junction.
1. The walk from seed 1 takes 1-2 and 2-3.
2. Key 4 then seeds a group.
3. Its only curve leads back to the already visited vertex 2, so the group
   stays empty.
4. `Last()` throws.

`Grouping.TJunctionFails` proves this outcome of the model.

The same rule can make the node succeed while losing a curve. Take two
chains, 1-10-2 and 3-20-4, joined by a bridge 10-20 that is listed last.
1. Vertices 10 and 20 have three curves each, so neither seeds a group.
2. The walk from seed 1 reaches 10 along 1-10. It leaves by 10-2, the
   first listed curve other than the one it came on, and stops at 2.
3. The walk from seed 3 likewise takes 3-20 and 20-4.
4. The bridge is in no group. The node returns the two chains as
   polycurves, ungroups nothing, and the bridge is in neither output.

`Bridge.BridgeDropped` proves this outcome. The node's docstring
(GraphicalDynamo/src/Geometry/Curves.cs:152-154) promises that every
curve is either joined into a polycurve or returned ungrouped, so this
input breaks that promise.

A curve that shares neither endpoint with any other input curve behaves
in one of two ways:
- When it is open, its first endpoint among the keys seeds a group, the
  walk stops at its other endpoint, and the group holds the curve alone.
  So whenever the node succeeds, the curve is among the ungrouped curves
  (`LoneCurves.LoneCurveUngrouped`).
- When it is closed, its vertex lists it twice and seeds a group. The
  walk along it comes straight back to the seed, which is already
  visited, so the group stays empty and `Last()` throws. Any input with
  such a curve makes the node fail (`LoneCurves.LoneLoopFails`).

## Model

| member | source | states |
|---|---|---|
| Incidence.CurvesDependency | GraphicalDynamo/src/Geometry/Curves.cs:32-61 | the dictionary the loop fills is the incidence map of all the curves, and its keys come in first-insertion order |
| Incidence.Attach | GraphicalDynamo/src/Geometry/Curves.cs:42-58 | one TryGetValue/Add step appends the curve to the vertex's list, or adds the vertex with a one-curve list and extends the key order |
| Incidence.AttachedTracks | GraphicalDynamo/src/Geometry/Curves.cs:36-58 | recording a curve at its start and then at its end turns the map and key order of the earlier curves into those of the curves so far |
| Incidence.InsertionOrderKeys | GraphicalDynamo/src/Geometry/Curves.cs:36-58 | a vertex is a key exactly when it is an endpoint of some input curve |
| Incidence.InsertionOrderDistinct | GraphicalDynamo/src/Geometry/Curves.cs:42-57 | each vertex is added as a key only once |
| Incidence.IncidentEmpty | GraphicalDynamo/src/Geometry/Curves.cs:36-58 | a vertex's list is empty exactly when the vertex is not a key, so no list in the map is empty |
| Incidence.IncidentCount | GraphicalDynamo/src/Geometry/Curves.cs:36-58 | a curve occurs in a vertex's list once per input occurrence for its start and once for its end, so a curve with coinciding ends occurs twice |
| Incidence.IncidentMembers | GraphicalDynamo/src/Geometry/Curves.cs:36-58 | a vertex's list holds exactly the input curves that start or end at it |
| Incidence.IncidentAppend | GraphicalDynamo/src/Geometry/Curves.cs:36-58 | lists follow input order: the list for a concatenation is the concatenation of the lists |
| Incidence.DegreeSum | GraphicalDynamo/src/Geometry/Curves.cs:36-58 | the list lengths over all keys sum to twice the number of curves |
| Incidence.DegreesCover | GraphicalDynamo/src/Geometry/Curves.cs:36-58 | over distinct keys covering every endpoint, the list lengths sum to twice the number of curves |
| Grouping.GroupCurves | GraphicalDynamo/src/Geometry/Curves.cs:159-227 | a null list fails with ArgumentNullException, fewer than two curves with ArgumentException, both before any other work; otherwise the result is the pass over the keys followed by the split |
| Grouping.SeedPass | GraphicalDynamo/src/Geometry/Curves.cs:168-206 | the loop over the keys yields the visited map and group table of the pass, or its first exception |
| Grouping.SeedGroup | GraphicalDynamo/src/Geometry/Curves.cs:178-204 | the loop over a seed's curves runs a walk and its closing step for each curve in list order |
| Grouping.WalkChain | GraphicalDynamo/src/Geometry/Curves.cs:180-198 | the `while` loop ends in the state the walk describes, or in the exception of `First()` |
| Grouping.SplitCurves | GraphicalDynamo/src/Geometry/Curves.cs:208-220 | the final loop yields the split of the groups, in group order |
| Grouping.Other | GraphicalDynamo/src/Geometry/Curves.cs:183 | (also the choice at line 196) for a vertex on the curve, that vertex and the result are the curve's two endpoints (the vertex itself when the curve is closed); otherwise the start |
| Grouping.FirstOther | GraphicalDynamo/src/Geometry/Curves.cs:193 | the curve picked is in the vertex's list and differs from the current curve |
| Grouping.FirstOtherIsFirst | GraphicalDynamo/src/Geometry/Curves.cs:193 | the pick fails exactly when every listed curve equals the current one, and otherwise it is the first listed curve that does not |
| Grouping.Walk | GraphicalDynamo/src/Geometry/Curves.cs:185-197 | the only way a walk fails is `First()` on an empty filter |
| Grouping.WalkKeeps | GraphicalDynamo/src/Geometry/Curves.cs:185-188 | a walk never reassigns a visited vertex |
| Grouping.WalkAssigns | GraphicalDynamo/src/Geometry/Curves.cs:185-188 | every vertex a walk marks is a key of the map and gets the seed's group id |
| Grouping.WalkExtends | GraphicalDynamo/src/Geometry/Curves.cs:188 | a walk only appends to the group |
| Grouping.WalkSteps | GraphicalDynamo/src/Geometry/Curves.cs:185-188 | each curve a walk adds goes with exactly one newly marked vertex |
| Grouping.WalkBound | GraphicalDynamo/src/Geometry/Curves.cs:185-197 | a walk adds at most as many curves as there are unvisited keys, so it ends within the number of keys steps |
| Grouping.WalkWithin | GraphicalDynamo/src/Geometry/Curves.cs:185-197 | a walk adds only curves from the incidence lists |
| Grouping.Close | GraphicalDynamo/src/Geometry/Curves.cs:199-202 | the closing step fails with `Last()` exactly on an empty group; otherwise it ends the group with the current curve, adding it only when it is not already the last |
| Grouping.Spokes | GraphicalDynamo/src/Geometry/Curves.cs:178-204 | a seed's walks fail only with `First()` or `Last()` |
| Grouping.SpokesMarks | GraphicalDynamo/src/Geometry/Curves.cs:178-204 | a seed's walks never reassign a vertex, give every newly marked vertex the seed's id, only append to the group, and leave it nonempty when the seed has a curve |
| Grouping.SpokesWithin | GraphicalDynamo/src/Geometry/Curves.cs:178-204 | a seed's group holds only input curves |
| Grouping.Pass | GraphicalDynamo/src/Geometry/Curves.cs:168-206 | the pass fails only with `First()` or `Last()` |
| Grouping.PassAssigns | GraphicalDynamo/src/Geometry/Curves.cs:168-206 | no vertex is ever reassigned; every id in the visited map names a group; groups are only added at the end; no group is empty; each new id k went to a key that, at its own turn, was unvisited with at most two curves and came after exactly k groups; and conversely every key that is such a seed at its turn gets the number of groups made before it |
| Grouping.PassSeeds | GraphicalDynamo/src/Geometry/Curves.cs:171-176 | every new group id k was given to a key that was unvisited with at most two curves at its turn, when k groups existed |
| Grouping.PassSeedTurns | GraphicalDynamo/src/Geometry/Curves.cs:171-176 | every key that is unvisited with at most two curves at its turn is marked with the number of groups made before it |
| Grouping.PassSplit | GraphicalDynamo/src/Geometry/Curves.cs:168-206 | the pass over two runs of keys is the pass over the first run continued from its state over the second, and it fails when the first run fails |
| Grouping.PassWithin | GraphicalDynamo/src/Geometry/Curves.cs:168-206 | every group holds only input curves |
| Grouping.IncidenceClosed | GraphicalDynamo/src/Geometry/Curves.cs:164 | the map built from the input lists only input curves, every endpoint of a listed curve is a key, and no list is empty, so every lookup in the walk succeeds |
| Grouping.TabulateGroups | GraphicalDynamo/src/Geometry/Curves.cs:164-206 | after a successful pass over the incidence map every group is nonempty and holds only input curves |
| Grouping.SplitGroupsFails | GraphicalDynamo/src/Geometry/Curves.cs:210-219 | the split fails with `First()` exactly when some group is empty |
| Grouping.SplitGroupsCount | GraphicalDynamo/src/Geometry/Curves.cs:210-219 | every group yields exactly one output |
| Grouping.SplitGroupsJoined | GraphicalDynamo/src/Geometry/Curves.cs:210-215 | the polycurves are one polycurve joined from each group of more than one curve, in group order (equal to `JoinedGroups`), so a polycurve is output exactly for such a group |
| Grouping.SplitGroupsSingles | GraphicalDynamo/src/Geometry/Curves.cs:210-219 | the ungrouped curves are the curve of each one-curve group, in group order (equal to `SingleCurves`), so a curve is ungrouped exactly when it forms a one-curve group |
| Grouping.JoinedGroupsMembers | GraphicalDynamo/src/Geometry/Curves.cs:212-215 | a polycurve is joined from the groups exactly when it joins a group of more than one curve |
| Grouping.SingleCurvesMembers | GraphicalDynamo/src/Geometry/Curves.cs:216-219 | a curve is taken from the groups exactly when it forms a one-curve group |
| Grouping.SplitGroupsWithin | GraphicalDynamo/src/Geometry/Curves.cs:210-219 | every polycurve joins several curves from the groups, and every ungrouped curve comes from them |
| Grouping.GroupCurvesErrors | GraphicalDynamo/src/Geometry/Curves.cs:164-219 | with two or more curves the node fails only with `First()` or `Last()` on an empty sequence |
| Grouping.GroupCurvesCount | GraphicalDynamo/src/Geometry/Curves.cs:164-219 | when the pass succeeds the node succeeds, and it outputs one polycurve or ungrouped curve per group |
| Grouping.GroupCurvesMembers | GraphicalDynamo/src/Geometry/Curves.cs:164-226 | every output polycurve joins several input curves, and every ungrouped curve is an input curve |
| LoneCurves.LoneList | GraphicalDynamo/src/Geometry/Curves.cs:36-58 | the list at an endpoint of a curve no other curve touches holds that curve alone, twice when the curve is closed |
| LoneCurves.WalkAvoids | GraphicalDynamo/src/Geometry/Curves.cs:185-197 | a walk that starts away from both ends of such a curve never marks either end |
| LoneCurves.PassAvoids | GraphicalDynamo/src/Geometry/Curves.cs:168-206 | a pass over keys that are not ends of such a curve leaves both ends unvisited |
| LoneCurves.OpenTurn | GraphicalDynamo/src/Geometry/Curves.cs:171-204 | an unvisited end of an open curve that is alone at both ends is a seed, and its group is that curve alone |
| LoneCurves.LoopTurn | GraphicalDynamo/src/Geometry/Curves.cs:171-204 | the unvisited vertex of a closed curve alone there is a seed, and its walk leaves the group empty, so `Last()` fails |
| LoneCurves.LoneCurveGroup | GraphicalDynamo/src/Geometry/Curves.cs:164-206 | after a successful pass, an open curve that occurs once and shares no endpoint with another curve forms a group on its own |
| LoneCurves.LoneCurveUngrouped | GraphicalDynamo/src/Geometry/Curves.cs:159-227 | when the node succeeds, such an open curve is among the ungrouped curves |
| LoneCurves.LoneLoopFails | GraphicalDynamo/src/Geometry/Curves.cs:159-227 | a closed curve that occurs once and shares its vertex with no other curve makes the node fail |
| Grouping.TJunctionWalk | GraphicalDynamo/src/Geometry/Curves.cs:185-197 | the walk from seed 1 passes through the degree-three vertex 2 and stops at 3 |
| Bridge.FirstWalk | GraphicalDynamo/src/Geometry/Curves.cs:185-197 | the walk from seed 1 passes through vertex 10, which has three curves, leaves it by the first other listed curve 10-2 and stops at 2, so it never takes the bridge |
| Bridge.BridgeDropped | GraphicalDynamo/src/Geometry/Curves.cs:159-227 | on chains 1-10-2 and 3-20-4 joined by a bridge 10-20 listed last, the node succeeds with the two chains as polycurves and nothing ungrouped, so the bridge, an input curve, is in no output |
| Grouping.TJunctionFails | GraphicalDynamo/src/Geometry/Curves.cs:159-206 | on curves 1-2, 2-3, 2-4 the node fails with `Last()` on an empty group |
| CurvesPolygons.BuildPolygons | GraphicalDynamo/src/Geometry/Curves.cs:109-150 | a null list fails with ArgumentNullException and fewer than two lines with ArgumentException; otherwise the outputs are the sort of the assembled polygons |
| CurvesPolygons.SortedFails | GraphicalDynamo/src/Geometry/Curves.cs:121-143 | the sort fails, with `First()` on no edges, exactly when some assembled polygon is open and has no edge |
| CurvesPolygons.SortedPolygons | GraphicalDynamo/src/Geometry/Curves.cs:124-127 | "polygons" holds one host polygon through the vertices of each closed polygon, in order, and nothing else |
| CurvesPolygons.SortedUngrouped | GraphicalDynamo/src/Geometry/Curves.cs:128-142 | "ungrouped" holds the line of every edge of every open polygon, in order; the one-edge branch agrees with the several-edge branch |
| CurvesPolygons.OpenLinesAppend | GraphicalDynamo/src/Geometry/Curves.cs:121-143 | the lines of the open polygons of two lists are those of each list in turn |
| CurvesPolygons.BuildPolygonsOutputs | GraphicalDynamo/src/Geometry/Curves.cs:109-150 | with two or more lines the node fails exactly on an open polygon without edges, and otherwise returns the closed polygons as polygons and the open ones as their edges' lines |
| Geometry.ClosedPolygonsMembers | GraphicalDynamo/src/Geometry/Curve.cs:41-44 | the polygon bucket holds a polygon for every closed group and for nothing else |
| Geometry.ClosedPolygonsAppend | GraphicalDynamo/src/Geometry/Curve.cs:38-44 | the polygon bucket of two lists is that of each list in turn |
| CurvePolygons.BuildPolygons | GraphicalDynamo/src/Geometry/Curve.cs:25-63 | a null list fails with ArgumentNullException and fewer than two lines with ArgumentException; otherwise the three outputs are the bucketing of the assembled polygons |
| CurvePolygons.BucketFails | GraphicalDynamo/src/Geometry/Curve.cs:38-55 | the bucketing fails, with `First()` on no edges, exactly when some assembled polygon is open and has no edge |
| CurvePolygons.BucketCounts | GraphicalDynamo/src/Geometry/Curve.cs:38-55 | each assembled polygon lands in exactly one bucket, and the polygon bucket is the closed ones, in order |
| CurvePolygons.BucketPolyCurves | GraphicalDynamo/src/Geometry/Curve.cs:38-55 | the polycurves are one polycurve through the vertices of each open polygon of several edges, in polygon order (equal to `ChainCurves`), so one is output exactly for such a polygon |
| CurvePolygons.BucketLines | GraphicalDynamo/src/Geometry/Curve.cs:38-55 | the lines are the line of the edge of each open polygon with one edge, in polygon order (equal to `SingleLines`), so one is output exactly for such a polygon |
| CurvePolygons.ChainCurvesMembers | GraphicalDynamo/src/Geometry/Curve.cs:45-48 | a polycurve is in the chain list exactly when it runs through the vertices of an open polygon of several edges |
| CurvePolygons.SingleLinesMembers | GraphicalDynamo/src/Geometry/Curve.cs:49-54 | a line is in the line list exactly when it is the line of the edge of an open polygon with one edge |
| CurvePolygons.NodesAgree | GraphicalDynamo/src/Geometry/Curve.cs:25-63 | on the same assembled polygons the two nodes fail alike and return the same polygons, and every line of this node is among the other node's ungrouped lines |

## Left out

- Grouping.GroupCurvesMembers: states only that every output is made of input curves. It does not state that a successful node outputs each input curve at most once across polycurves and ungrouped curves; that disjointness of the groups is not proved. The model does not claim that every input curve is output either, since `Bridge.BridgeDropped` shows the node can drop one.

- The polygon and chain assembly done by the graph library (`Graph.ByLines`, `BaseGraph.ByLines`, `graph.BuildPolygons()`, `Polygons`, `IsClosed`) is not part of this model. Its result is a parameter of the two BuildPolygons methods.
- Vertex identity is a type parameter with decidable equality. The coordinate conversion `Points.ToVertex`, `Vertex.Equals`, hashing and tolerance comparison are not modelled.
- Curve identity is datatype equality on handle and endpoints. It stands in for `Curve.Equals`.
- `Dictionary` enumeration is taken to follow first-insertion order. This holds for a dictionary that only ever has keys added. The model computes that order alongside the map.
- The group table `grouped` is a sequence indexed by group id. The ids are 0 to k-1, added in order.
- Each seed's group is built in a local value and appended once the seed is done. An exception ends the whole node, so the result is the same.
- The nested loops of `GroupCurves` are separate methods, one per loop.
- Host object construction (`Polygon.ByPoints`, `PolyCurve.ByPoints`, `PolyCurve.ByJoinedCurves`, `Line.ByStartPointEndPoint`, `Point.ByCoordinates`) is modelled as constructors that record their arguments. Host-side failures of these calls are not modelled.
- Null elements inside the input lists are not modelled. Only a null list is.
- `Polygonize`, `DoesIntersect`, `PolygonContainsPoint`, `ToEdge` and `ToLine` are not part of this model. They are floating-point geometry or thin wrappers over the graph library.
- Points.cs, Polygons.cs and the Graphs files are not part of this model, for the same reasons.
- The unused local `polygonEdges` of both BuildPolygons nodes has no counterpart.
