/** `Curves.GroupCurves`: walks the incidence map and gathers curves into
    groups, then turns each group of several curves into a polycurve and
    each group of one curve into an ungrouped curve.

    The four loops of the node are four methods, each proved equal to a
    function that states the loop's whole run:
    - `WalkChain` (the inner `while`) against `Walk`,
    - `SeedGroup` (the `foreach` over the seed's curves) against `Spokes`,
    - `SeedPass` (the `foreach` over the map's keys) against `Pass`,
    - `SplitCurves` (the final `foreach` over the groups) against
      `SplitGroups`.
    `GroupCurves` checks the argument, builds the incidence map, runs
    `SeedPass` and `SplitCurves`, and is proved equal to `GroupCurvesSpec`.
    The visited map `vertices` (vertex -> group id) and the group table
    `grouped` (group id -> curves, ids 0..k-1 added in order, held here as a
    sequence indexed by id) are local values that the methods reassign. */
module Grouping {
  import opened Geometry
  import opened Incidence

  type Graph<V> = map<V, seq<Curve<V>>>

  /** Every listed curve has both endpoints as keys, so looking up the
      vertex a walk arrives at never misses. */
  ghost predicate Closed<V>(graph: Graph<V>)
  {
    forall v, c :: v in graph && c in graph[v] ==> c.start in graph && c.end in graph
  }

  /** Every listed curve is one of `pool`. */
  ghost predicate ListedIn<V>(graph: Graph<V>, pool: seq<Curve<V>>)
  {
    forall v, c :: v in graph && c in graph[v] ==> c in pool
  }

  /** Every curve of every group is one of `pool`. */
  ghost predicate GroupsIn<V>(groups: seq<seq<Curve<V>>>, pool: seq<Curve<V>>)
  {
    forall g, c :: g in groups && c in g ==> c in pool
  }

  /** The state the inner walk leaves: visited map, current group, and the
      curve it ended on (`nextCurve`). */
  datatype Walker<V> = Walker(visited: map<V, nat>, group: seq<Curve<V>>, curve: Curve<V>)

  /** The visited map and the finished group of one seed. */
  datatype Seeded<V> = Seeded(visited: map<V, nat>, group: seq<Curve<V>>)

  /** The visited map and the group table after the pass over the keys. */
  datatype Tables<V> = Tables(visited: map<V, nat>, grouped: seq<seq<Curve<V>>>)

  /** The node's two outputs. */
  datatype Grouped<V> = Grouped(polyCurves: seq<PolyCurve<V>>, ungrouped: seq<Curve<V>>)

  /** The endpoint of `c` across from `v`; the start when `c` does not start
      at `v`. When `v` is an endpoint, `v` and the result are the curve's two
      endpoints: `v` itself for a closed curve, the far end otherwise. */
  function Other<V(==)>(c: Curve<V>, v: V): (r: V)
    ensures c.start == v || c.end == v ==> multiset{v, r} == multiset{c.start, c.end}
    ensures c.start != v && c.end != v ==> r == c.start
  {
    if c.start == v then c.end else c.start
  }

  /** `list.Where(c => !c.Equals(cur)).First()`, with `None` for the
      exception an empty filter raises. */
  function FirstOther<V(==)>(list: seq<Curve<V>>, cur: Curve<V>): (r: Option<Curve<V>>)
    ensures r.Some? ==> r.value in list && r.value != cur
  {
    if list == [] then None
    else if list[0] != cur then Some(list[0])
    else FirstOther(list[1..], cur)
  }

  /** FirstOther fails exactly when every curve of the list is `cur`, and
      otherwise picks the first curve that is not. */
  lemma {:induction false} FirstOtherIsFirst<V>(list: seq<Curve<V>>, cur: Curve<V>)
    ensures FirstOther(list, cur).None? <==> forall c :: c in list ==> c == cur
    ensures FirstOther(list, cur).Some? ==>
      exists i :: 0 <= i < |list| && list[i] == FirstOther(list, cur).value && forall j :: 0 <= j < i ==> list[j] == cur
  {
    if list != [] {
      if list[0] != cur {
        assert list[0] in list;
      } else {
        FirstOtherIsFirst(list[1..], cur);
        assert forall c :: c in list ==> c == cur || c in list[1..];
        if FirstOther(list, cur).Some? {
          var i :| 0 <= i < |list[1..]| && list[1..][i] == FirstOther(list, cur).value && forall j :: 0 <= j < i ==> list[1..][j] == cur;
          assert list[i + 1] == list[1..][i];
          assert forall j :: 0 <= j < i + 1 ==> list[j] == cur by {
            forall j | 0 <= j < i + 1 ensures list[j] == cur {
              if j > 0 {
                assert list[j] == list[1..][j - 1];
              }
            }
          }
        }
      }
    }
  }

  /** The inner walk from curve `cur` towards vertex `at`, all vertices it
      reaches joining group `gid`. It stops on a visited vertex, or after
      marking a vertex with fewer than two curves; otherwise it leaves the
      vertex, whatever its degree, by its first curve other than `cur`. */
  function Walk<V(==)>(graph: Graph<V>, gid: nat, visited: map<V, nat>, group: seq<Curve<V>>, cur: Curve<V>, at: V): (r: Result<Walker<V>>)
    requires Closed(graph) && at in graph
    ensures r.Err? ==> r.error == NoOtherCurve
    decreases |graph.Keys - visited.Keys|
  {
    if at in visited then Ok(Walker(visited, group, cur))
    else
      var marked := visited[at := gid];
      if |graph[at]| < 2 then Ok(Walker(marked, group + [cur], cur))
      else
        match FirstOther(graph[at], cur)
        case None => Err(NoOtherCurve)
        case Some(next) =>
          MarkShrinks(graph, visited, at, gid);
          Walk(graph, gid, marked, group + [cur], next, Other(next, at))
  }

  /** After a walk: add the curve it ended on unless it is already the
      group's last curve; `Last()` on an empty group fails. */
  function Close<V(==)>(group: seq<Curve<V>>, cur: Curve<V>): (r: Result<seq<Curve<V>>>)
    ensures r.Err? <==> group == []
    ensures r.Err? ==> r.error == EmptyGroup
    ensures r.Ok? ==> group <= r.value && |r.value| <= |group| + 1 && r.value[|r.value| - 1] == cur
    ensures r.Ok? ==> (r.value == group <==> group[|group| - 1] == cur)
  {
    if group == [] then Err(EmptyGroup)
    else if group[|group| - 1] != cur then Ok(group + [cur])
    else Ok(group)
  }

  /** The walks from `seed` along each curve of `spokes` in turn, each
      followed by its closing step. */
  function Spokes<V(==)>(graph: Graph<V>, seed: V, gid: nat, visited: map<V, nat>, group: seq<Curve<V>>, spokes: seq<Curve<V>>): (r: Result<Seeded<V>>)
    requires Closed(graph)
    requires forall c :: c in spokes ==> c.start in graph && c.end in graph
    ensures r.Err? ==> r.error == NoOtherCurve || r.error == EmptyGroup
    decreases |spokes|
  {
    if spokes == [] then Ok(Seeded(visited, group))
    else
      var w :- Walk(graph, gid, visited, group, spokes[0], Other(spokes[0], seed));
      var closed :- Close(w.group, w.curve);
      Spokes(graph, seed, gid, w.visited, closed, spokes[1..])
  }

  /** A key starts a group when it is unvisited and has at most two curves. */
  predicate IsSeed<V(==)>(graph: Graph<V>, visited: map<V, nat>, v: V)
    requires v in graph
  {
    v !in visited && |graph[v]| <= 2
  }

  /** The pass over `keys`: each seed gets the next group id, is marked, and
      the walks from it fill the new group. */
  function Pass<V(==)>(graph: Graph<V>, keys: seq<V>, visited: map<V, nat>, grouped: seq<seq<Curve<V>>>): (r: Result<Tables<V>>)
    requires Closed(graph)
    requires forall k :: k in keys ==> k in graph
    ensures r.Err? ==> r.error == NoOtherCurve || r.error == EmptyGroup
    decreases |keys|
  {
    if keys == [] then Ok(Tables(visited, grouped))
    else
      var v := keys[0];
      if !IsSeed(graph, visited, v) then Pass(graph, keys[1..], visited, grouped)
      else
        var gid := |grouped|;
        var s :- Spokes(graph, v, gid, visited[v := gid], [], graph[v]);
        Pass(graph, keys[1..], s.visited, grouped + [s.group])
  }

  /** The final loop: a group of several curves becomes one polycurve, a
      group of one curve is ungrouped, and `First()` fails on an empty one. */
  function SplitGroups<V>(grouped: seq<seq<Curve<V>>>): Result<Grouped<V>>
  {
    if grouped == [] then Ok(Grouped([], []))
    else
      var n := |grouped| - 1;
      var rest :- SplitGroups(grouped[..n]);
      var group := grouped[n];
      if |group| > 1 then Ok(Grouped(rest.polyCurves + [PolyCurveByJoinedCurves(group)], rest.ungrouped))
      else if group == [] then Err(EmptyGroup)
      else Ok(Grouped(rest.polyCurves, rest.ungrouped + [group[0]]))
  }

  /** What the node returns for a (possibly null) list of curves. */
  function GroupCurvesSpec<V(==)>(input: Option<seq<Curve<V>>>): Result<Grouped<V>>
  {
    if input.None? then Err(ArgumentNull)
    else if |input.value| < 2 then Err(TooFewItems)
    else
      var tables :- Tabulate(input.value);
      SplitGroups(tables.grouped)
  }

  /** The pass over the incidence map of `curves`, keys in insertion order,
      starting with nothing visited and no group. */
  function Tabulate<V(==)>(curves: seq<Curve<V>>): Result<Tables<V>>
  {
    IncidenceClosed(curves);
    Pass(IncidenceMap(curves), InsertionOrder(curves), map[], [])
  }

  // ---------------------------------------------------------------------
  // The node's loops

  /** The inner `while`: follow the chain until a visited vertex or a dead end. */
  method WalkChain<V(==)>(graph: Graph<V>, gid: nat, visited: map<V, nat>, group: seq<Curve<V>>, curve: Curve<V>, start: V)
    returns (r: Result<Walker<V>>)
    requires Closed(graph) && start in graph
    ensures r == Walk(graph, gid, visited, group, curve, start)
  {
    var vertices, current, nextCurve, nextVertex := visited, group, curve, start;
    while nextVertex !in vertices
      invariant nextVertex in graph
      invariant Walk(graph, gid, vertices, current, nextCurve, nextVertex) == Walk(graph, gid, visited, group, curve, start)
      decreases |graph.Keys - vertices.Keys|
    {
      WalkStep(graph, gid, vertices, current, nextCurve, nextVertex);
      vertices := vertices[nextVertex := gid];
      current := current + [nextCurve];
      if |graph[nextVertex]| < 2 {
        break;
      }
      match FirstOther(graph[nextVertex], nextCurve) {
        case None =>
          return Err(NoOtherCurve);
        case Some(c) =>
          nextCurve, nextVertex := c, Other(c, nextVertex);
      }
    }
    r := Ok(Walker(vertices, current, nextCurve));
  }

  /** The `foreach` over the curves of a seed: one walk per curve, each
      followed by the closing step. */
  method SeedGroup<V(==)>(graph: Graph<V>, seed: V, gid: nat, visited: map<V, nat>, spokes: seq<Curve<V>>)
    returns (r: Result<Seeded<V>>)
    requires Closed(graph)
    requires forall c :: c in spokes ==> c.start in graph && c.end in graph
    ensures r == Spokes(graph, seed, gid, visited, [], spokes)
  {
    var vertices, group := visited, [];
    for j := 0 to |spokes|
      invariant Spokes(graph, seed, gid, vertices, group, spokes[j..]) == Spokes(graph, seed, gid, visited, [], spokes)
    {
      var curve := spokes[j];
      assert spokes[j..][0] == curve && spokes[j..][1..] == spokes[j + 1..];
      var w := WalkChain(graph, gid, vertices, group, curve, Other(curve, seed));
      if w.Err? {
        return Err(w.error);
      }
      vertices, group := w.value.visited, w.value.group;
      if group == [] {
        return Err(EmptyGroup);
      }
      if group[|group| - 1] != w.value.curve {
        group := group + [w.value.curve];
      }
    }
    r := Ok(Seeded(vertices, group));
  }

  /** The final `foreach` over the groups. */
  method SplitCurves<V>(grouped: seq<seq<Curve<V>>>) returns (r: Result<Grouped<V>>)
    ensures r == SplitGroups(grouped)
  {
    var polyCurves, ungrouped := [], [];
    for i := 0 to |grouped|
      invariant SplitGroups(grouped[..i]) == Ok(Grouped(polyCurves, ungrouped))
    {
      var group := grouped[i];
      assert grouped[..i + 1][..i] == grouped[..i];
      if |group| > 1 {
        polyCurves := polyCurves + [PolyCurveByJoinedCurves(group)];
      } else if group == [] {
        SplitGroupsFails(grouped);
        return Err(EmptyGroup);
      } else {
        ungrouped := ungrouped + [group[0]];
      }
    }
    assert grouped[..|grouped|] == grouped;
    r := Ok(Grouped(polyCurves, ungrouped));
  }

  /** The outer `foreach` over the keys in insertion order: every key that
      is unvisited and has at most two curves seeds the next group. */
  method SeedPass<V(==)>(graph: Graph<V>, keys: seq<V>) returns (r: Result<Tables<V>>)
    requires Closed(graph)
    requires forall k :: k in keys ==> k in graph
    ensures r == Pass(graph, keys, map[], [])
  {
    var vertices: map<V, nat>, grouped: seq<seq<Curve<V>>> := map[], [];
    for i := 0 to |keys|
      invariant Pass(graph, keys[i..], vertices, grouped) == Pass(graph, keys, map[], [])
    {
      var v := keys[i];
      assert keys[i..][0] == v && keys[i..][1..] == keys[i + 1..];
      if v in vertices || |graph[v]| > 2 {
        continue;
      }
      var gid := |grouped|;
      var s := SeedGroup(graph, v, gid, vertices[v := gid], graph[v]);
      if s.Err? {
        return Err(s.error);
      }
      vertices, grouped := s.value.visited, grouped + [s.value.group];
    }
    r := Ok(Tables(vertices, grouped));
  }

  /** The node: argument checks, the incidence map, the pass over its keys
      in insertion order, and the split into the two outputs. */
  method GroupCurves<V(==)>(input: Option<seq<Curve<V>>>) returns (r: Result<Grouped<V>>)
    ensures input.None? ==> r == Err(ArgumentNull)
    ensures input.Some? && |input.value| < 2 ==> r == Err(TooFewItems)
    ensures r == GroupCurvesSpec(input)
  {
    if input.None? {
      return Err(ArgumentNull);
    }
    var curves := input.value;
    if |curves| < 2 {
      return Err(TooFewItems);
    }
    var graph, keys := CurvesDependency(curves);
    IncidenceClosed(curves);
    var tables := SeedPass(graph, keys);
    if tables.Err? {
      return Err(tables.error);
    }
    r := SplitCurves(tables.value.grouped);
  }

  // ---------------------------------------------------------------------
  // Properties

  /** The map CurvesDependency builds lists only input curves, and every
      endpoint of a listed curve is a key. */
  lemma IncidenceClosed<V>(curves: seq<Curve<V>>)
    ensures Closed(IncidenceMap(curves))
    ensures ListedIn(IncidenceMap(curves), curves)
    ensures forall v :: v in IncidenceMap(curves) ==> IncidenceMap(curves)[v] != []
    ensures forall v :: v in InsertionOrder(curves) ==> v in IncidenceMap(curves)
  {
    var graph := IncidenceMap(curves);
    forall v: V, c: Curve<V> | v in graph && c in graph[v]
      ensures c.start in graph && c.end in graph && c in curves
    {
      IncidentMembers(curves, v, c);
      var i :| 0 <= i < |curves| && curves[i] == c;
      InsertionOrderKeys(curves, c.start);
      InsertionOrderKeys(curves, c.end);
    }
    forall v | v in graph ensures graph[v] != [] {
      IncidentEmpty(curves, v);
    }
  }

  /** One step of a walk from an unvisited vertex, unfolded. */
  lemma WalkStep<V>(graph: Graph<V>, gid: nat, visited: map<V, nat>, group: seq<Curve<V>>, cur: Curve<V>, at: V)
    requires Closed(graph) && at in graph && at !in visited
    ensures |graph.Keys - visited[at := gid].Keys| < |graph.Keys - visited.Keys|
    ensures |graph[at]| < 2 ==> Walk(graph, gid, visited, group, cur, at) == Ok(Walker(visited[at := gid], group + [cur], cur))
    ensures |graph[at]| >= 2 && FirstOther(graph[at], cur).None? ==> Walk(graph, gid, visited, group, cur, at) == Err(NoOtherCurve)
    ensures |graph[at]| >= 2 && FirstOther(graph[at], cur).Some? ==>
      var next := FirstOther(graph[at], cur).value;
      && Other(next, at) in graph
      && Walk(graph, gid, visited, group, cur, at) == Walk(graph, gid, visited[at := gid], group + [cur], next, Other(next, at))
  {
    MarkShrinks(graph, visited, at, gid);
  }

  /** Marking an unvisited key leaves fewer unvisited keys. */
  lemma MarkShrinks<V>(graph: Graph<V>, visited: map<V, nat>, at: V, gid: nat)
    requires at in graph && at !in visited
    ensures |graph.Keys - visited[at := gid].Keys| < |graph.Keys - visited.Keys|
  {
    assert graph.Keys - visited[at := gid].Keys == (graph.Keys - visited.Keys) - {at};
  }

  /** One walk: vertices already visited keep their id. */
  lemma {:induction false} WalkKeeps<V>(graph: Graph<V>, gid: nat, visited: map<V, nat>, group: seq<Curve<V>>, cur: Curve<V>, at: V)
    requires Closed(graph) && at in graph
    requires Walk(graph, gid, visited, group, cur, at).Ok?
    ensures var w := Walk(graph, gid, visited, group, cur, at).value;
      forall u :: u in visited ==> u in w.visited && w.visited[u] == visited[u]
    decreases |graph.Keys - visited.Keys|
  {
    if at !in visited && |graph[at]| >= 2 {
      var next := FirstOther(graph[at], cur).value;
      MarkShrinks(graph, visited, at, gid);
      WalkKeeps(graph, gid, visited[at := gid], group + [cur], next, Other(next, at));
    }
  }

  /** One walk: the vertices it marks are keys of the map, and they get
      the seed's group id. */
  lemma {:induction false} WalkAssigns<V>(graph: Graph<V>, gid: nat, visited: map<V, nat>, group: seq<Curve<V>>, cur: Curve<V>, at: V)
    requires Closed(graph) && at in graph
    requires Walk(graph, gid, visited, group, cur, at).Ok?
    ensures var w := Walk(graph, gid, visited, group, cur, at).value;
      forall u :: u in w.visited && u !in visited ==> u in graph && w.visited[u] == gid
    decreases |graph.Keys - visited.Keys|
  {
    if at !in visited && |graph[at]| >= 2 {
      var next := FirstOther(graph[at], cur).value;
      MarkShrinks(graph, visited, at, gid);
      WalkAssigns(graph, gid, visited[at := gid], group + [cur], next, Other(next, at));
      WalkKeeps(graph, gid, visited[at := gid], group + [cur], next, Other(next, at));
    }
  }

  /** One walk only appends to the group. */
  lemma {:induction false} WalkExtends<V>(graph: Graph<V>, gid: nat, visited: map<V, nat>, group: seq<Curve<V>>, cur: Curve<V>, at: V)
    requires Closed(graph) && at in graph
    requires Walk(graph, gid, visited, group, cur, at).Ok?
    ensures var w := Walk(graph, gid, visited, group, cur, at).value;
      group <= w.group
    decreases |graph.Keys - visited.Keys|
  {
    if at !in visited && |graph[at]| >= 2 {
      var next := FirstOther(graph[at], cur).value;
      MarkShrinks(graph, visited, at, gid);
      WalkExtends(graph, gid, visited[at := gid], group + [cur], next, Other(next, at));
    }
  }

  /** Every step of a walk marks one vertex that was not visited and
      appends one curve, so the group grows by exactly as many curves as
      the visited map grows by vertices. */
  lemma {:induction false} WalkSteps<V>(graph: Graph<V>, gid: nat, visited: map<V, nat>, group: seq<Curve<V>>, cur: Curve<V>, at: V)
    requires Closed(graph) && at in graph
    requires Walk(graph, gid, visited, group, cur, at).Ok?
    ensures var w := Walk(graph, gid, visited, group, cur, at).value;
      |w.group| + |visited| == |group| + |w.visited|
    decreases |graph.Keys - visited.Keys|
  {
    var w := Walk(graph, gid, visited, group, cur, at).value;
    if at !in visited && |graph[at]| >= 2 {
      var marked := visited[at := gid];
      MarkShrinks(graph, visited, at, gid);
      var next := FirstOther(graph[at], cur).value;
      WalkSteps(graph, gid, marked, group + [cur], next, Other(next, at));
    }
  }

  /** A walk appends at most as many curves as the map has unvisited
      keys, so the inner loop ends within |keys| steps. */
  lemma WalkBound<V>(graph: Graph<V>, gid: nat, visited: map<V, nat>, group: seq<Curve<V>>, cur: Curve<V>, at: V)
    requires Closed(graph) && at in graph
    requires Walk(graph, gid, visited, group, cur, at).Ok?
    ensures |Walk(graph, gid, visited, group, cur, at).value.group| - |group| <= |graph.Keys - visited.Keys|
  {
    var w := Walk(graph, gid, visited, group, cur, at).value;
    WalkSteps(graph, gid, visited, group, cur, at);
    WalkKeeps(graph, gid, visited, group, cur, at);
    WalkAssigns(graph, gid, visited, group, cur, at);
    var marked := w.visited.Keys - visited.Keys;
    assert w.visited.Keys == visited.Keys + marked;
    assert visited.Keys * marked == {};
    SubsetSize(marked, graph.Keys - visited.Keys);
  }

  /** A subset is no larger than the set that holds it. */
  lemma {:induction false} SubsetSize<T>(a: set<T>, b: set<T>)
    requires a <= b
    ensures |a| <= |b|
  {
    if a != {} {
      var x :| x in a;
      SubsetSize(a - {x}, b - {x});
    }
  }

  /** The curves a walk appends are its starting curve or listed curves. */
  lemma {:induction false} WalkWithin<V>(graph: Graph<V>, pool: seq<Curve<V>>, gid: nat, visited: map<V, nat>, group: seq<Curve<V>>, cur: Curve<V>, at: V)
    requires Closed(graph) && at in graph
    requires ListedIn(graph, pool) && cur in pool && (forall c :: c in group ==> c in pool)
    requires Walk(graph, gid, visited, group, cur, at).Ok?
    ensures var w := Walk(graph, gid, visited, group, cur, at).value;
      w.curve in pool && forall c :: c in w.group ==> c in pool
    decreases |graph.Keys - visited.Keys|
  {
    if at !in visited && |graph[at]| >= 2 {
      var next := FirstOther(graph[at], cur).value;
      var marked := visited[at := gid];
      MarkShrinks(graph, visited, at, gid);
      WalkWithin(graph, pool, gid, marked, group + [cur], next, Other(next, at));
    }
  }

  /** All walks from one seed: marked vertices keep their id, newly marked
      ones get the seed's id, the group only grows at its end, and a seed
      with at least one curve ends with a non-empty group. */
  lemma {:induction false} SpokesMarks<V>(graph: Graph<V>, seed: V, gid: nat, visited: map<V, nat>, group: seq<Curve<V>>, spokes: seq<Curve<V>>)
    requires Closed(graph)
    requires forall c :: c in spokes ==> c.start in graph && c.end in graph
    requires Spokes(graph, seed, gid, visited, group, spokes).Ok?
    ensures var s := Spokes(graph, seed, gid, visited, group, spokes).value;
      && (forall u :: u in visited ==> u in s.visited && s.visited[u] == visited[u])
      && (forall u :: u in s.visited && u !in visited ==> s.visited[u] == gid)
      && group <= s.group
      && (spokes != [] ==> s.group != [])
    decreases |spokes|
  {
    if spokes != [] {
      var c := spokes[0];
      var w := Walk(graph, gid, visited, group, c, Other(c, seed)).value;
      WalkKeeps(graph, gid, visited, group, c, Other(c, seed));
      WalkAssigns(graph, gid, visited, group, c, Other(c, seed));
      WalkExtends(graph, gid, visited, group, c, Other(c, seed));
      var closed := Close(w.group, w.curve).value;
      assert w.group <= closed;
      SpokesMarks(graph, seed, gid, w.visited, closed, spokes[1..]);
      var s := Spokes(graph, seed, gid, visited, group, spokes).value;
    }
  }

  /** The curves gathered from one seed are among `pool`. */
  lemma {:induction false} SpokesWithin<V>(graph: Graph<V>, pool: seq<Curve<V>>, seed: V, gid: nat, visited: map<V, nat>, group: seq<Curve<V>>, spokes: seq<Curve<V>>)
    requires Closed(graph)
    requires forall c :: c in spokes ==> c.start in graph && c.end in graph && c in pool
    requires ListedIn(graph, pool) && (forall c :: c in group ==> c in pool)
    requires Spokes(graph, seed, gid, visited, group, spokes).Ok?
    ensures forall c :: c in Spokes(graph, seed, gid, visited, group, spokes).value.group ==> c in pool
    decreases |spokes|
  {
    if spokes != [] {
      var c := spokes[0];
      var w := Walk(graph, gid, visited, group, c, Other(c, seed)).value;
      WalkWithin(graph, pool, gid, visited, group, c, Other(c, seed));
      SpokesWithin(graph, pool, seed, gid, w.visited, Close(w.group, w.curve).value, spokes[1..]);
    }
  }

  /** The key at index `i` is a seed when its turn comes: the pass over the
      keys before it succeeds and leaves it unvisited with at most two
      curves. */
  ghost predicate SeedTurn<V>(graph: Graph<V>, keys: seq<V>, visited: map<V, nat>, grouped: seq<seq<Curve<V>>>, i: nat)
    requires Closed(graph) && (forall k :: k in keys ==> k in graph) && i < |keys|
  {
    var before := Pass(graph, keys[..i], visited, grouped);
    before.Ok? && IsSeed(graph, before.value.visited, keys[i])
  }

  /** The number of groups when the key at index `i` gets its turn. */
  ghost function GroupsBefore<V>(graph: Graph<V>, keys: seq<V>, visited: map<V, nat>, grouped: seq<seq<Curve<V>>>, i: nat): nat
    requires Closed(graph) && (forall k :: k in keys ==> k in graph) && i < |keys|
    requires SeedTurn(graph, keys, visited, grouped, i)
  {
    |Pass(graph, keys[..i], visited, grouped).value.grouped|
  }

  /** Group id `k` went to the key at some index `i` that was a seed when
      its turn came, with `k` groups made before it. */
  ghost predicate SeededBy<V>(graph: Graph<V>, keys: seq<V>, visited: map<V, nat>, grouped: seq<seq<Curve<V>>>, final: map<V, nat>, k: nat)
    requires Closed(graph) && (forall k :: k in keys ==> k in graph)
  {
    exists i: nat :: i < |keys| && SeedTurn(graph, keys, visited, grouped, i)
      && GroupsBefore(graph, keys, visited, grouped, i) == k && keys[i] in final && final[keys[i]] == k
  }

  /** The pass over the keys: no vertex is ever reassigned; every id in the
      visited map names a group; the groups only grow at the end; no group
      is left empty; every new id k went to a key that was a seed at its
      turn, when k groups had been made; and every key that is a seed at its
      turn gets the next id. */
  lemma PassAssigns<V>(graph: Graph<V>, keys: seq<V>, visited: map<V, nat>, grouped: seq<seq<Curve<V>>>)
    requires Closed(graph)
    requires forall k :: k in keys ==> k in graph
    requires forall k :: k in graph ==> graph[k] != []
    requires forall u :: u in visited ==> visited[u] < |grouped|
    requires forall g :: g in grouped ==> g != []
    requires Pass(graph, keys, visited, grouped).Ok?
    ensures var t := Pass(graph, keys, visited, grouped).value;
      && (forall u :: u in visited ==> u in t.visited && t.visited[u] == visited[u])
      && (forall u :: u in t.visited ==> t.visited[u] < |t.grouped|)
      && grouped <= t.grouped
      && (forall g :: g in t.grouped ==> g != [])
      && (forall k :: |grouped| <= k < |t.grouped| ==> SeededBy(graph, keys, visited, grouped, t.visited, k))
      && (forall i: nat :: i < |keys| && SeedTurn(graph, keys, visited, grouped, i) ==>
            keys[i] in t.visited && t.visited[keys[i]] == GroupsBefore(graph, keys, visited, grouped, i))
  {
    PassKeeps(graph, keys, visited, grouped);
    PassSeeds(graph, keys, visited, grouped);
    PassSeedTurns(graph, keys, visited, grouped);
  }

  /** The invariants the pass keeps on the visited map and the groups. */
  lemma {:induction false} PassKeeps<V>(graph: Graph<V>, keys: seq<V>, visited: map<V, nat>, grouped: seq<seq<Curve<V>>>)
    requires Closed(graph)
    requires forall k :: k in keys ==> k in graph
    requires forall k :: k in graph ==> graph[k] != []
    requires forall u :: u in visited ==> visited[u] < |grouped|
    requires forall g :: g in grouped ==> g != []
    requires Pass(graph, keys, visited, grouped).Ok?
    ensures var t := Pass(graph, keys, visited, grouped).value;
      && (forall u :: u in visited ==> u in t.visited && t.visited[u] == visited[u])
      && (forall u :: u in t.visited ==> t.visited[u] < |t.grouped|)
      && grouped <= t.grouped
      && (forall g :: g in t.grouped ==> g != [])
    decreases |keys|
  {
    if keys != [] {
      var v := keys[0];
      if !IsSeed(graph, visited, v) {
        PassKeeps(graph, keys[1..], visited, grouped);
      } else {
        var gid := |grouped|;
        var marked := visited[v := gid];
        var s := Spokes(graph, v, gid, marked, [], graph[v]).value;
        SpokesMarks(graph, v, gid, marked, [], graph[v]);
        PassKeeps(graph, keys[1..], s.visited, grouped + [s.group]);
      }
    }
  }

  /** A pass never reassigns a visited vertex (with no assumption on the
      groups). */
  lemma {:induction false} PassKeepsVisited<V>(graph: Graph<V>, keys: seq<V>, visited: map<V, nat>, grouped: seq<seq<Curve<V>>>)
    requires Closed(graph)
    requires forall k :: k in keys ==> k in graph
    requires Pass(graph, keys, visited, grouped).Ok?
    ensures var t := Pass(graph, keys, visited, grouped).value;
      forall u :: u in visited ==> u in t.visited && t.visited[u] == visited[u]
    decreases |keys|
  {
    if keys != [] {
      var v := keys[0];
      if !IsSeed(graph, visited, v) {
        PassKeepsVisited(graph, keys[1..], visited, grouped);
      } else {
        var gid := |grouped|;
        var marked := visited[v := gid];
        var s := Spokes(graph, v, gid, marked, [], graph[v]).value;
        SpokesMarks(graph, v, gid, marked, [], graph[v]);
        PassKeepsVisited(graph, keys[1..], s.visited, grouped + [s.group]);
      }
    }
  }

  /** Every new group id went to a key that was a seed at its turn. */
  lemma {:induction false} PassSeeds<V>(graph: Graph<V>, keys: seq<V>, visited: map<V, nat>, grouped: seq<seq<Curve<V>>>)
    requires Closed(graph)
    requires forall k :: k in keys ==> k in graph
    requires Pass(graph, keys, visited, grouped).Ok?
    ensures var t := Pass(graph, keys, visited, grouped).value;
      forall k :: |grouped| <= k < |t.grouped| ==> SeededBy(graph, keys, visited, grouped, t.visited, k)
    decreases |keys|
  {
    if keys != [] {
      var v, rest := keys[0], keys[1..];
      var t := Pass(graph, keys, visited, grouped).value;
      var first := Pass(graph, keys[..1], visited, grouped);
      assert keys == keys[..1] + rest;
      PassSplit(graph, keys[..1], rest, visited, grouped);
      PassSeeds(graph, rest, first.value.visited, first.value.grouped);
      forall k | |grouped| <= k < |t.grouped| ensures SeededBy(graph, keys, visited, grouped, t.visited, k) {
        if k < |first.value.grouped| {
          assert keys[..0] == [];
          assert SeedTurn(graph, keys, visited, grouped, 0);
          FirstTurnMarks(graph, keys, visited, grouped);
        } else {
          ShiftSeeded(graph, keys, visited, grouped, t.visited, k);
        }
      }
    }
  }

  /** When the first key is a seed, its turn makes one group, numbered by
      the groups before it, and the rest of the pass keeps that mark. */
  lemma FirstTurnMarks<V>(graph: Graph<V>, keys: seq<V>, visited: map<V, nat>, grouped: seq<seq<Curve<V>>>)
    requires Closed(graph) && (forall k :: k in keys ==> k in graph) && keys != []
    requires Pass(graph, keys, visited, grouped).Ok?
    ensures var first := Pass(graph, keys[..1], visited, grouped);
      && first.Ok?
      && |first.value.grouped| == (if IsSeed(graph, visited, keys[0]) then |grouped| + 1 else |grouped|)
      && (IsSeed(graph, visited, keys[0]) ==>
            keys[0] in Pass(graph, keys, visited, grouped).value.visited
            && Pass(graph, keys, visited, grouped).value.visited[keys[0]] == |grouped|)
  {
    var v, rest := keys[0], keys[1..];
    assert keys[..1] == [v] && [v][1..] == [];
    if IsSeed(graph, visited, v) {
      var gid := |grouped|;
      var marked := visited[v := gid];
      var s := Spokes(graph, v, gid, marked, [], graph[v]).value;
      SpokesMarks(graph, v, gid, marked, [], graph[v]);
      PassKeepsVisited(graph, rest, s.visited, grouped + [s.group]);
    }
  }

  /** A seed turn among the keys after the first is a seed turn among all
      the keys, one index later. */
  lemma ShiftSeeded<V>(graph: Graph<V>, keys: seq<V>, visited: map<V, nat>, grouped: seq<seq<Curve<V>>>, final: map<V, nat>, k: nat)
    requires Closed(graph) && (forall k :: k in keys ==> k in graph) && keys != []
    requires Pass(graph, keys[..1], visited, grouped).Ok?
    requires var first := Pass(graph, keys[..1], visited, grouped).value;
      SeededBy(graph, keys[1..], first.visited, first.grouped, final, k)
    ensures SeededBy(graph, keys, visited, grouped, final, k)
  {
    var first := Pass(graph, keys[..1], visited, grouped).value;
    var rest := keys[1..];
    var j: nat :| j < |rest| && SeedTurn(graph, rest, first.visited, first.grouped, j)
      && GroupsBefore(graph, rest, first.visited, first.grouped, j) == k && rest[j] in final && final[rest[j]] == k;
    TurnShift(keys, j);
    assert keys[..j + 1] == keys[..1] + rest[..j];
    PassSplit(graph, keys[..1], rest[..j], visited, grouped);
    assert SeedTurn(graph, keys, visited, grouped, j + 1);
  }

  /** The pass over `a + b` is the pass over `a` followed by the pass over `b`. */
  lemma {:induction false} PassSplit<V>(graph: Graph<V>, a: seq<V>, b: seq<V>, visited: map<V, nat>, grouped: seq<seq<Curve<V>>>)
    requires Closed(graph) && (forall k :: k in a ==> k in graph) && (forall k :: k in b ==> k in graph)
    ensures forall k :: k in a + b ==> k in graph
    ensures Pass(graph, a, visited, grouped).Err? ==>
      Pass(graph, a + b, visited, grouped) == Err(Pass(graph, a, visited, grouped).error)
    ensures Pass(graph, a, visited, grouped).Ok? ==>
      Pass(graph, a + b, visited, grouped)
        == Pass(graph, b, Pass(graph, a, visited, grouped).value.visited, Pass(graph, a, visited, grouped).value.grouped)
    decreases |a|
  {
    if a == [] {
      assert a + b == b;
    } else {
      var v := a[0];
      assert (a + b)[0] == v && (a + b)[1..] == a[1..] + b;
      if !IsSeed(graph, visited, v) {
        PassSplit(graph, a[1..], b, visited, grouped);
      } else {
        var gid := |grouped|;
        var r := Spokes(graph, v, gid, visited[v := gid], [], graph[v]);
        if r.Ok? {
          PassSplit(graph, a[1..], b, r.value.visited, grouped + [r.value.group]);
        }
      }
    }
  }

  /** Every key that is a seed at its turn gets the number of groups made
      before it as its id. */
  lemma {:induction false} PassSeedTurns<V>(graph: Graph<V>, keys: seq<V>, visited: map<V, nat>, grouped: seq<seq<Curve<V>>>)
    requires Closed(graph)
    requires forall k :: k in keys ==> k in graph
    requires Pass(graph, keys, visited, grouped).Ok?
    ensures var t := Pass(graph, keys, visited, grouped).value;
      forall i: nat :: i < |keys| && SeedTurn(graph, keys, visited, grouped, i) ==>
        keys[i] in t.visited && t.visited[keys[i]] == GroupsBefore(graph, keys, visited, grouped, i)
    decreases |keys|
  {
    if keys != [] {
      var v, rest := keys[0], keys[1..];
      var t := Pass(graph, keys, visited, grouped).value;
      var visited', grouped' := visited, grouped;
      if IsSeed(graph, visited, v) {
        var gid := |grouped|;
        var marked := visited[v := gid];
        var s := Spokes(graph, v, gid, marked, [], graph[v]).value;
        SpokesMarks(graph, v, gid, marked, [], graph[v]);
        visited', grouped' := s.visited, grouped + [s.group];
        PassKeepsVisited(graph, rest, visited', grouped');
        assert keys[..0] == [];
      }
      assert t == Pass(graph, rest, visited', grouped').value;
      PassSeedTurns(graph, rest, visited', grouped');
      forall i: nat | 0 < i < |keys| && SeedTurn(graph, keys, visited, grouped, i)
        ensures keys[i] in t.visited && t.visited[keys[i]] == GroupsBefore(graph, keys, visited, grouped, i)
      {
        TurnShift(keys, i - 1);
      }
    }
  }

  /** Index `j` of the keys after the first is index `j + 1` of all keys,
      and the keys before it are the first key followed by those before `j`. */
  lemma TurnShift<T>(keys: seq<T>, j: nat)
    requires j + 1 < |keys|
    ensures keys[..j + 1][0] == keys[0] && keys[..j + 1][1..] == keys[1..][..j]
    ensures keys[j + 1] == keys[1..][j]
  {
  }

  /** The groups of a pass hold only curves from `pool`. */
  lemma {:induction false} PassWithin<V>(graph: Graph<V>, pool: seq<Curve<V>>, keys: seq<V>, visited: map<V, nat>, grouped: seq<seq<Curve<V>>>)
    requires Closed(graph)
    requires forall k :: k in keys ==> k in graph
    requires ListedIn(graph, pool) && GroupsIn(grouped, pool)
    requires Pass(graph, keys, visited, grouped).Ok?
    ensures GroupsIn(Pass(graph, keys, visited, grouped).value.grouped, pool)
    decreases |keys|
  {
    if keys != [] {
      var v := keys[0];
      if !IsSeed(graph, visited, v) {
        PassWithin(graph, pool, keys[1..], visited, grouped);
      } else {
        var gid := |grouped|;
        SpokesWithin(graph, pool, v, gid, visited[v := gid], [], graph[v]);
        var s := Spokes(graph, v, gid, visited[v := gid], [], graph[v]).value;
        PassWithin(graph, pool, keys[1..], s.visited, grouped + [s.group]);
      }
    }
  }

  /** The split fails exactly when some group is empty. */
  lemma {:induction false} SplitGroupsFails<V>(grouped: seq<seq<Curve<V>>>)
    ensures SplitGroups(grouped).Err? <==> exists i :: 0 <= i < |grouped| && grouped[i] == []
    ensures SplitGroups(grouped).Err? ==> SplitGroups(grouped).error == EmptyGroup
  {
    if grouped != [] {
      var n := |grouped| - 1;
      SplitGroupsFails(grouped[..n]);
      if exists i :: 0 <= i < n && grouped[..n][i] == [] {
        var i :| 0 <= i < n && grouped[..n][i] == [];
        assert grouped[i] == [];
      }
      if exists i :: 0 <= i < |grouped| && grouped[i] == [] {
        var i :| 0 <= i < |grouped| && grouped[i] == [];
        if i < n {
          assert grouped[..n][i] == [];
        }
      }
    }
  }

  /** Every group yields exactly one output. */
  lemma {:induction false} SplitGroupsCount<V>(grouped: seq<seq<Curve<V>>>)
    requires SplitGroups(grouped).Ok?
    ensures |SplitGroups(grouped).value.polyCurves| + |SplitGroups(grouped).value.ungrouped| == |grouped|
  {
    if grouped != [] {
      SplitGroupsCount(grouped[..|grouped| - 1]);
    }
  }

  /** Reference definition of the polycurve output: one polycurve joining
      each group of several curves, in group order. */
  function JoinedGroups<V>(grouped: seq<seq<Curve<V>>>): seq<PolyCurve<V>>
  {
    if grouped == [] then []
    else (if |grouped[0]| > 1 then [PolyCurveByJoinedCurves(grouped[0])] else []) + JoinedGroups(grouped[1..])
  }

  /** Reference definition of the ungrouped output: the curve of each
      one-curve group, in group order. */
  function SingleCurves<V>(grouped: seq<seq<Curve<V>>>): seq<Curve<V>>
  {
    if grouped == [] then []
    else (if |grouped[0]| == 1 then [grouped[0][0]] else []) + SingleCurves(grouped[1..])
  }

  /** JoinedGroups distributes over concatenation. */
  lemma {:induction false} JoinedGroupsAppend<V>(a: seq<seq<Curve<V>>>, b: seq<seq<Curve<V>>>)
    ensures JoinedGroups(a + b) == JoinedGroups(a) + JoinedGroups(b)
  {
    if a != [] {
      assert (a + b)[1..] == a[1..] + b;
      JoinedGroupsAppend(a[1..], b);
    } else {
      assert a + b == b;
    }
  }

  /** SingleCurves distributes over concatenation. */
  lemma {:induction false} SingleCurvesAppend<V>(a: seq<seq<Curve<V>>>, b: seq<seq<Curve<V>>>)
    ensures SingleCurves(a + b) == SingleCurves(a) + SingleCurves(b)
  {
    if a != [] {
      assert (a + b)[1..] == a[1..] + b;
      SingleCurvesAppend(a[1..], b);
    } else {
      assert a + b == b;
    }
  }

  /** The polycurve output, built one group at a time, is JoinedGroups. */
  lemma {:induction false} SplitGroupsPolyCurves<V>(grouped: seq<seq<Curve<V>>>)
    requires SplitGroups(grouped).Ok?
    ensures SplitGroups(grouped).value.polyCurves == JoinedGroups(grouped)
  {
    if grouped != [] {
      var n := |grouped| - 1;
      var g := grouped[n];
      SplitGroupsPolyCurves(grouped[..n]);
      assert grouped == grouped[..n] + [g];
      JoinedGroupsAppend(grouped[..n], [g]);
      assert [g][1..] == [];
    }
  }

  /** The ungrouped output, built one group at a time, is SingleCurves. */
  lemma {:induction false} SplitGroupsUngrouped<V>(grouped: seq<seq<Curve<V>>>)
    requires SplitGroups(grouped).Ok?
    ensures SplitGroups(grouped).value.ungrouped == SingleCurves(grouped)
  {
    if grouped != [] {
      var n := |grouped| - 1;
      var g := grouped[n];
      SplitGroupsUngrouped(grouped[..n]);
      assert grouped == grouped[..n] + [g];
      SingleCurvesAppend(grouped[..n], [g]);
      assert [g][1..] == [];
    }
  }

  /** JoinedGroups holds a polycurve for every group of several curves and
      nothing else. */
  lemma {:induction false} JoinedGroupsMembers<V>(grouped: seq<seq<Curve<V>>>)
    ensures forall p :: p in JoinedGroups(grouped) <==>
      exists i :: 0 <= i < |grouped| && |grouped[i]| > 1 && p == PolyCurveByJoinedCurves(grouped[i])
  {
    if grouped != [] {
      JoinedGroupsMembers(grouped[1..]);
      forall p ensures p in JoinedGroups(grouped) <==>
        exists i :: 0 <= i < |grouped| && |grouped[i]| > 1 && p == PolyCurveByJoinedCurves(grouped[i])
      {
        if p in JoinedGroups(grouped[1..]) {
          var j :| 0 <= j < |grouped[1..]| && |grouped[1..][j]| > 1 && p == PolyCurveByJoinedCurves(grouped[1..][j]);
          assert grouped[j + 1] == grouped[1..][j];
        }
        if exists i :: 0 <= i < |grouped| && |grouped[i]| > 1 && p == PolyCurveByJoinedCurves(grouped[i]) {
          var i :| 0 <= i < |grouped| && |grouped[i]| > 1 && p == PolyCurveByJoinedCurves(grouped[i]);
          if i > 0 {
            assert grouped[1..][i - 1] == grouped[i];
          }
        }
      }
    }
  }

  /** SingleCurves holds the curve of every one-curve group and nothing else. */
  lemma {:induction false} SingleCurvesMembers<V>(grouped: seq<seq<Curve<V>>>)
    ensures forall c :: c in SingleCurves(grouped) <==> [c] in grouped
  {
    if grouped != [] {
      SingleCurvesMembers(grouped[1..]);
      var g := grouped[0];
      assert grouped == [g] + grouped[1..];
      if |g| == 1 {
        assert g == [g[0]];
      }
    }
  }

  /** The polycurves are one per group of several curves, joining that
      group, in group order, and nothing else. */
  lemma SplitGroupsJoined<V>(grouped: seq<seq<Curve<V>>>)
    requires SplitGroups(grouped).Ok?
    ensures SplitGroups(grouped).value.polyCurves == JoinedGroups(grouped)
    ensures forall p :: p in SplitGroups(grouped).value.polyCurves <==>
      exists i :: 0 <= i < |grouped| && |grouped[i]| > 1 && p == PolyCurveByJoinedCurves(grouped[i])
  {
    SplitGroupsPolyCurves(grouped);
    JoinedGroupsMembers(grouped);
  }

  /** The ungrouped curves are the curves of the one-curve groups, one per
      group, in group order, and nothing else. */
  lemma SplitGroupsSingles<V>(grouped: seq<seq<Curve<V>>>)
    requires SplitGroups(grouped).Ok?
    ensures SplitGroups(grouped).value.ungrouped == SingleCurves(grouped)
    ensures forall c :: c in SplitGroups(grouped).value.ungrouped <==> [c] in grouped
  {
    SplitGroupsUngrouped(grouped);
    SingleCurvesMembers(grouped);
  }

  /** The groups of a successful pass over the incidence map: none is
      empty, and they hold only input curves. */
  lemma TabulateGroups<V>(curves: seq<Curve<V>>)
    requires Tabulate(curves).Ok?
    ensures forall g :: g in Tabulate(curves).value.grouped ==> g != []
    ensures GroupsIn(Tabulate(curves).value.grouped, curves)
  {
    IncidenceClosed(curves);
    PassAssigns(IncidenceMap(curves), InsertionOrder(curves), map[], []);
    PassWithin(IncidenceMap(curves), curves, InsertionOrder(curves), map[], []);
  }

  /** GroupCurves on at least two curves fails only in the walk: no other
      curve to leave a vertex by, or an empty group at the closing step. */
  lemma GroupCurvesErrors<V>(curves: seq<Curve<V>>)
    requires |curves| >= 2
    ensures GroupCurvesSpec(Some(curves)).Err? ==>
      GroupCurvesSpec(Some(curves)).error == NoOtherCurve || GroupCurvesSpec(Some(curves)).error == EmptyGroup
  {
    if Tabulate(curves).Ok? {
      SplitGroupsFails(Tabulate(curves).value.grouped);
    }
  }

  /** When the pass succeeds the split does too, with one output per group. */
  lemma GroupCurvesCount<V>(curves: seq<Curve<V>>)
    requires |curves| >= 2 && Tabulate(curves).Ok?
    ensures GroupCurvesSpec(Some(curves)).Ok?
    ensures |GroupCurvesSpec(Some(curves)).value.polyCurves| + |GroupCurvesSpec(Some(curves)).value.ungrouped|
      == |Tabulate(curves).value.grouped|
  {
    var grouped := Tabulate(curves).value.grouped;
    TabulateGroups(curves);
    SplitGroupsFails(grouped);
    forall i | 0 <= i < |grouped| ensures grouped[i] != [] {
      assert grouped[i] in grouped;
    }
    SplitGroupsCount(grouped);
  }

  /** The outputs of a split of groups drawn from `pool`: every polycurve
      joins several curves of `pool`, and every ungrouped curve is one. */
  lemma SplitGroupsWithin<V>(grouped: seq<seq<Curve<V>>>, pool: seq<Curve<V>>)
    requires SplitGroups(grouped).Ok? && GroupsIn(grouped, pool)
    ensures var out := SplitGroups(grouped).value;
      && (forall p :: p in out.polyCurves ==> p.PolyCurveByJoinedCurves? && |p.curves| > 1 && forall c :: c in p.curves ==> c in pool)
      && (forall c :: c in out.ungrouped ==> c in pool)
  {
    SplitGroupsSingles(grouped);
    var out := SplitGroups(grouped).value;
    forall c | c in out.ungrouped ensures c in pool {
      assert [c] in grouped;
      assert c in [c];
    }
    forall p | p in out.polyCurves
      ensures p.PolyCurveByJoinedCurves? && |p.curves| > 1 && forall c :: c in p.curves ==> c in pool
    {
      JoinedWithin(grouped, pool, p);
    }
  }

  /** One polycurve of a split of groups drawn from `pool`. */
  lemma JoinedWithin<V>(grouped: seq<seq<Curve<V>>>, pool: seq<Curve<V>>, p: PolyCurve<V>)
    requires SplitGroups(grouped).Ok? && GroupsIn(grouped, pool)
    requires p in SplitGroups(grouped).value.polyCurves
    ensures p.PolyCurveByJoinedCurves? && |p.curves| > 1 && forall c :: c in p.curves ==> c in pool
  {
    SplitGroupsJoined(grouped);
    var i :| 0 <= i < |grouped| && |grouped[i]| > 1 && p == PolyCurveByJoinedCurves(grouped[i]);
    assert grouped[i] in grouped;
  }

  /** Every polycurve joins several input curves and every ungrouped curve
      is an input curve. */
  lemma GroupCurvesMembers<V>(curves: seq<Curve<V>>)
    requires |curves| >= 2 && GroupCurvesSpec(Some(curves)).Ok?
    ensures var out := GroupCurvesSpec(Some(curves)).value;
      && (forall p :: p in out.polyCurves ==> p.PolyCurveByJoinedCurves? && |p.curves| > 1 && forall c :: c in p.curves ==> c in curves)
      && (forall c :: c in out.ungrouped ==> c in curves)
  {
    TabulateGroups(curves);
    SplitGroupsWithin(Tabulate(curves).value.grouped, curves);
  }

  // ---------------------------------------------------------------------
  // A T-junction, worked through

  /** Vertex 2 joins curves to 1, 3 and 4. */
  function TJunction(): seq<Curve<int>>
  {
    [Curve(0, 1, 2), Curve(1, 2, 3), Curve(2, 2, 4)]
  }

  /** Its keys, in insertion order. */
  lemma TJunctionKeys()
    ensures InsertionOrder(TJunction()) == [1, 2, 3, 4]
  {
    var c0, c1, c2 := Curve(0, 1, 2), Curve(1, 2, 3), Curve(2, 2, 4);
    assert [c0][..0] == [] && [c0, c1][..1] == [c0] && TJunction()[..2] == [c0, c1];
    assert InsertionOrder([c0]) == [1, 2];
    assert InsertionOrder([c0, c1]) == [1, 2, 3];
  }

  /** Its lists: vertex 2 has degree 3. */
  lemma TJunctionLists()
    ensures Incident(TJunction(), 1) == [Curve(0, 1, 2)]
    ensures Incident(TJunction(), 2) == [Curve(0, 1, 2), Curve(1, 2, 3), Curve(2, 2, 4)]
    ensures Incident(TJunction(), 3) == [Curve(1, 2, 3)]
    ensures Incident(TJunction(), 4) == [Curve(2, 2, 4)]
  {
    var c0, c1, c2 := Curve(0, 1, 2), Curve(1, 2, 3), Curve(2, 2, 4);
    IncidentSnoc([], c0, 1);
    IncidentSnoc([], c0, 2);
    IncidentSnoc([], c0, 3);
    IncidentSnoc([], c0, 4);
    IncidentSnoc([c0], c1, 1);
    IncidentSnoc([c0], c1, 2);
    IncidentSnoc([c0], c1, 3);
    IncidentSnoc([c0], c1, 4);
    IncidentSnoc([c0, c1], c2, 1);
    IncidentSnoc([c0, c1], c2, 2);
    IncidentSnoc([c0, c1], c2, 3);
    IncidentSnoc([c0, c1], c2, 4);
  }

  /** The incidence map of the T-junction, written out. */
  function TGraph(): Graph<int>
  {
    map[1 := [Curve(0, 1, 2)], 2 := [Curve(0, 1, 2), Curve(1, 2, 3), Curve(2, 2, 4)],
        3 := [Curve(1, 2, 3)], 4 := [Curve(2, 2, 4)]]
  }

  lemma TJunctionGraph()
    ensures IncidenceMap(TJunction()) == TGraph()
  {
    TJunctionKeys();
    TJunctionLists();
    TGraphOf(TJunction());
  }

  /** Any curves with the T-junction's key order and lists have TGraph as
      their incidence map. */
  lemma TGraphOf(cs: seq<Curve<int>>)
    requires InsertionOrder(cs) == [1, 2, 3, 4]
    requires Incident(cs, 1) == [Curve(0, 1, 2)]
    requires Incident(cs, 2) == [Curve(0, 1, 2), Curve(1, 2, 3), Curve(2, 2, 4)]
    requires Incident(cs, 3) == [Curve(1, 2, 3)]
    requires Incident(cs, 4) == [Curve(2, 2, 4)]
    ensures IncidenceMap(cs) == TGraph()
  {
    assert Tracks(TGraph(), [1, 2, 3, 4], cs);
    TracksAll(TGraph(), [1, 2, 3, 4], cs);
  }

  lemma TGraphClosed()
    ensures Closed(TGraph())
  {
  }

  /** The walk from seed 1 passes through vertex 2 (degree 3) and stops at 3. */
  lemma TJunctionWalk()
    ensures Closed(TGraph())
    ensures Walk(TGraph(), 0, map[1 := 0], [], Curve(0, 1, 2), 2)
         == Ok(Walker(map[1 := 0, 2 := 0, 3 := 0], [Curve(0, 1, 2), Curve(1, 2, 3)], Curve(1, 2, 3)))
  {
    TGraphClosed();
    var a, b := Curve(0, 1, 2), Curve(1, 2, 3);
    assert 3 in TGraph() && |TGraph()[3]| < 2 && 3 !in map[1 := 0, 2 := 0];
    assert map[1 := 0, 2 := 0][3 := 0] == map[1 := 0, 2 := 0, 3 := 0];
    assert map[1 := 0][2 := 0] == map[1 := 0, 2 := 0];
    assert FirstOther([a, b, Curve(2, 2, 4)], a) == Some(b) by {
      assert [a, b, Curve(2, 2, 4)][1..] == [b, Curve(2, 2, 4)];
    }
    assert [a] + [b] == [a, b] && [] + [a] == [a];
    var g := TGraph();
    assert g[3] == [b] && g[2] == [a, b, Curve(2, 2, 4)];
    assert Other(b, 2) == 3 && Other(a, 1) == 2;
    assert Walk(g, 0, map[1 := 0, 2 := 0], [a], b, 3)
        == Ok(Walker(map[1 := 0, 2 := 0, 3 := 0], [a, b], b));
  }

  /** Seed 1 collects the group [a, b]. */
  lemma TJunctionFirstGroup()
    ensures Closed(TGraph())
    ensures Spokes(TGraph(), 1, 0, map[1 := 0], [], [Curve(0, 1, 2)])
         == Ok(Seeded(map[1 := 0, 2 := 0, 3 := 0], [Curve(0, 1, 2), Curve(1, 2, 3)]))
  {
    TJunctionWalk();
    var b := Curve(1, 2, 3);
    assert [Curve(0, 1, 2)][1..] == [];
  }

  /** Seed 4's only curve leads back to the visited vertex 2, so its group
      stays empty and closing it fails. */
  lemma TJunctionSecondGroup()
    ensures Closed(TGraph())
    ensures Spokes(TGraph(), 4, 1, map[1 := 0, 2 := 0, 3 := 0, 4 := 1], [], [Curve(2, 2, 4)]) == Err(EmptyGroup)
  {
    TJunctionWalk();
    assert Walk(TGraph(), 1, map[1 := 0, 2 := 0, 3 := 0, 4 := 1], [], Curve(2, 2, 4), 2)
        == Ok(Walker(map[1 := 0, 2 := 0, 3 := 0, 4 := 1], [], Curve(2, 2, 4)));
  }

  /** Key 4 is a seed, and its group fails. */
  lemma TJunctionLastKey()
    ensures Closed(TGraph())
    ensures Pass(TGraph(), [4], map[1 := 0, 2 := 0, 3 := 0], [[Curve(0, 1, 2), Curve(1, 2, 3)]]) == Err(EmptyGroup)
  {
    TJunctionSecondGroup();
    assert map[1 := 0, 2 := 0, 3 := 0][4 := 1] == map[1 := 0, 2 := 0, 3 := 0, 4 := 1];
    assert |[[Curve(0, 1, 2), Curve(1, 2, 3)]]| == 1;
  }

  /** Keys 2 and 3 were visited by the first walk and are skipped. */
  lemma TJunctionVisitedKeys()
    ensures Closed(TGraph())
    ensures Pass(TGraph(), [2, 3, 4], map[1 := 0, 2 := 0, 3 := 0], [[Curve(0, 1, 2), Curve(1, 2, 3)]]) == Err(EmptyGroup)
  {
    TJunctionLastKey();
    assert [2, 3, 4][1..] == [3, 4] && [3, 4][1..] == [4];
  }

  /** The pass over the keys 1, 2, 3, 4 fails on the second group. */
  lemma TJunctionPass()
    ensures Closed(TGraph())
    ensures Pass(TGraph(), [1, 2, 3, 4], map[], []) == Err(EmptyGroup)
  {
    TJunctionFirstGroup();
    TJunctionVisitedKeys();
    assert [1, 2, 3, 4][1..] == [2, 3, 4];
    assert map[][1 := 0] == map[1 := 0] && [] + [[Curve(0, 1, 2), Curve(1, 2, 3)]] == [[Curve(0, 1, 2), Curve(1, 2, 3)]];
  }

  /** A vertex of degree three is walked through, not treated as a seed: on
      a T-junction (curves 1-2, 2-3, 2-4) the walk from 1 takes 1-2 and
      2-3, vertex 4 then seeds a group whose only curve leads back to the
      visited vertex 2, the group stays empty, and `Last()` fails. */
  lemma TJunctionFails()
    ensures GroupCurvesSpec(Some(TJunction())) == Err(EmptyGroup)
  {
    TJunctionKeys();
    TJunctionGraph();
    TJunctionPass();
  }
}
