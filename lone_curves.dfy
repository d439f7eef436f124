/** Two promises of `Curves.GroupCurves` about a curve that shares neither
    endpoint with any other input curve: when it is open and the node
    succeeds, it comes out as an ungrouped curve; when it is closed (its
    start is its end), the node fails, because the walk from its only
    vertex finds that vertex already visited and leaves an empty group. */
module LoneCurves {
  import opened Geometry
  import opened Incidence
  import opened Grouping

  /** `x` has an endpoint at `v`. */
  ghost predicate Touches<V>(x: Curve<V>, v: V)
  {
    x.start == v || x.end == v
  }

  /** `c` occurs once among `curves`, and no other input curve has an
      endpoint at either end of `c`. */
  ghost predicate Lone<V>(curves: seq<Curve<V>>, c: Curve<V>)
  {
    && multiset(curves)[c] == 1
    && forall x :: x in curves && x != c ==> !Touches(x, c.start) && !Touches(x, c.end)
  }

  /** Every listed curve has an endpoint at the vertex that lists it. */
  ghost predicate Touching<V>(graph: Graph<V>)
  {
    forall v, x :: v in graph && x in graph[v] ==> Touches(x, v)
  }

  /** No listed curve other than `c` has an endpoint at either end of `c`. */
  ghost predicate Apart<V>(graph: Graph<V>, c: Curve<V>)
  {
    forall v, x :: v in graph && x in graph[v] && x != c ==> !Touches(x, c.start) && !Touches(x, c.end)
  }

  /** Neither end of `c` is visited. */
  ghost predicate Unvisited<V>(visited: map<V, nat>, c: Curve<V>)
  {
    c.start !in visited && c.end !in visited
  }

  /** Elements all equal to `x` are as many as the occurrences of `x`. */
  lemma {:induction false} AllOf<T>(s: seq<T>, x: T)
    requires forall y :: y in s ==> y == x
    ensures |s| == multiset(s)[x]
  {
    if s != [] {
      assert s == [s[0]] + s[1..];
      assert multiset(s) == multiset{s[0]} + multiset(s[1..]);
      assert s[0] in s && forall y :: y in s[1..] ==> y in s;
      AllOf(s[1..], x);
    }
  }

  /** The list of a lone curve's end holds that curve alone: once when it is
      open, twice (start and end) when it is closed. */
  lemma LoneList<V>(curves: seq<Curve<V>>, c: Curve<V>, v: V)
    requires Lone(curves, c) && Touches(c, v)
    ensures Incident(curves, v) == (if c.start == c.end then [c, c] else [c])
  {
    var list := Incident(curves, v);
    forall x | x in list
      ensures x == c
    {
      IncidentMembers(curves, v, x);
    }
    IncidentCount(curves, v, c);
    AllOf(list, c);
    if c.start == c.end {
      assert list[0] in list && list[1] in list;
    } else {
      assert list[0] in list;
    }
  }

  /** The incidence map of curves with a lone curve `c`: its lists touch
      their vertex, no other listed curve touches an end of `c`, and the
      ends of `c` are keys. */
  lemma LoneGraph<V>(curves: seq<Curve<V>>, c: Curve<V>)
    requires Lone(curves, c)
    ensures Touching(IncidenceMap(curves)) && Apart(IncidenceMap(curves), c)
    ensures c.start in InsertionOrder(curves)
  {
    var graph := IncidenceMap(curves);
    forall v, x | v in graph && x in graph[v]
      ensures Touches(x, v) && (x != c ==> !Touches(x, c.start) && !Touches(x, c.end))
    {
      IncidentMembers(curves, v, x);
    }
    assert multiset(curves)[c] > 0;
    var i :| 0 <= i < |curves| && curves[i] == c;
    InsertionOrderKeys(curves, c.start);
  }

  /** The first key that is an end of `c`. */
  ghost function FirstEnd<V>(keys: seq<V>, c: Curve<V>): (i: nat)
    requires c.start in keys
    ensures i < |keys| && Touches(c, keys[i])
    ensures forall j :: 0 <= j < i ==> !Touches(c, keys[j])
  {
    if Touches(c, keys[0]) then 0
    else
      var i := 1 + FirstEnd(keys[1..], c);
      assert forall j :: 1 <= j < i ==> keys[j] == keys[1..][j - 1];
      i
  }

  /** Leaving a vertex away from the ends of `c` by one of its curves
      arrives away from them too. */
  lemma NextAway<V>(graph: Graph<V>, c: Curve<V>, at: V, next: Curve<V>)
    requires Touching(graph) && Apart(graph, c)
    requires at in graph && next in graph[at] && !Touches(c, at)
    ensures !Touches(c, Other(next, at))
  {
    assert Touches(next, at);
    assert next != c;
    assert !Touches(next, c.start) && !Touches(next, c.end);
  }

  /** A walk that starts away from the ends of `c` never reaches them: it
      leaves each vertex by a curve that touches it, which is not `c`. */
  lemma {:induction false} WalkAvoids<V>(graph: Graph<V>, c: Curve<V>, gid: nat, visited: map<V, nat>, group: seq<Curve<V>>, cur: Curve<V>, at: V)
    requires Closed(graph) && at in graph && Touching(graph) && Apart(graph, c)
    requires !Touches(c, at) && Unvisited(visited, c)
    requires Walk(graph, gid, visited, group, cur, at).Ok?
    ensures Unvisited(Walk(graph, gid, visited, group, cur, at).value.visited, c)
    decreases |graph.Keys - visited.Keys|
  {
    if at !in visited && |graph[at]| >= 2 {
      var marked := visited[at := gid];
      var next := FirstOther(graph[at], cur).value;
      NextAway(graph, c, at, next);
      MarkShrinks(graph, visited, at, gid);
      assert Walk(graph, gid, visited, group, cur, at) == Walk(graph, gid, marked, group + [cur], next, Other(next, at));
      WalkAvoids(graph, c, gid, marked, group + [cur], next, Other(next, at));
    }
  }

  /** The walks from a seed away from the ends of `c` never reach them. */
  lemma {:induction false} SpokesAvoids<V>(graph: Graph<V>, c: Curve<V>, seed: V, gid: nat, visited: map<V, nat>, group: seq<Curve<V>>, spokes: seq<Curve<V>>)
    requires Closed(graph) && seed in graph && Touching(graph) && Apart(graph, c)
    requires forall x :: x in spokes ==> x in graph[seed]
    requires !Touches(c, seed) && Unvisited(visited, c)
    requires Spokes(graph, seed, gid, visited, group, spokes).Ok?
    ensures Unvisited(Spokes(graph, seed, gid, visited, group, spokes).value.visited, c)
    decreases |spokes|
  {
    if spokes != [] {
      var x := spokes[0];
      NextAway(graph, c, seed, x);
      var w := Walk(graph, gid, visited, group, x, Other(x, seed)).value;
      WalkAvoids(graph, c, gid, visited, group, x, Other(x, seed));
      var closed := Close(w.group, w.curve).value;
      SpokesAvoids(graph, c, seed, gid, w.visited, closed, spokes[1..]);
    }
  }

  /** A pass over keys that are not ends of `c` leaves both ends unvisited. */
  lemma {:induction false} PassAvoids<V>(graph: Graph<V>, c: Curve<V>, keys: seq<V>, visited: map<V, nat>, grouped: seq<seq<Curve<V>>>)
    requires Closed(graph) && (forall k :: k in keys ==> k in graph) && Touching(graph) && Apart(graph, c)
    requires forall k :: k in keys ==> !Touches(c, k)
    requires Unvisited(visited, c)
    requires Pass(graph, keys, visited, grouped).Ok?
    ensures Unvisited(Pass(graph, keys, visited, grouped).value.visited, c)
    decreases |keys|
  {
    if keys != [] {
      var v := keys[0];
      if !IsSeed(graph, visited, v) {
        PassAvoids(graph, c, keys[1..], visited, grouped);
      } else {
        var gid := |grouped|;
        var s := Spokes(graph, v, gid, visited[v := gid], [], graph[v]).value;
        SpokesAvoids(graph, c, v, gid, visited[v := gid], [], graph[v]);
        PassAvoids(graph, c, keys[1..], s.visited, grouped + [s.group]);
      }
    }
  }

  /** A pass only appends groups. */
  lemma {:induction false} PassGrows<V>(graph: Graph<V>, keys: seq<V>, visited: map<V, nat>, grouped: seq<seq<Curve<V>>>)
    requires Closed(graph) && (forall k :: k in keys ==> k in graph)
    requires Pass(graph, keys, visited, grouped).Ok?
    ensures grouped <= Pass(graph, keys, visited, grouped).value.grouped
    decreases |keys|
  {
    if keys != [] {
      var v := keys[0];
      if !IsSeed(graph, visited, v) {
        PassGrows(graph, keys[1..], visited, grouped);
      } else {
        var gid := |grouped|;
        var s := Spokes(graph, v, gid, visited[v := gid], [], graph[v]).value;
        PassGrows(graph, keys[1..], s.visited, grouped + [s.group]);
      }
    }
  }

  /** The turn of an unvisited end `v` of an open curve `c` that is the
      only curve at both of its ends: the walk along `c` marks the other
      end and stops there, and the group is `c` alone. */
  lemma OpenTurn<V>(graph: Graph<V>, c: Curve<V>, v: V, gid: nat, visited: map<V, nat>)
    requires Closed(graph) && c.start != c.end && Touches(c, v)
    requires c.start in graph && c.end in graph && graph[c.start] == [c] && graph[c.end] == [c]
    requires Unvisited(visited, c)
    ensures IsSeed(graph, visited, v)
    ensures Spokes(graph, v, gid, visited[v := gid], [], graph[v]) == Ok(Seeded(visited[v := gid][Other(c, v) := gid], [c]))
  {
    var marked := visited[v := gid];
    var w := Other(c, v);
    if v == c.start {
      assert w == c.end;
    } else {
      assert w == c.start;
    }
    assert w != v && w !in marked && |graph[w]| < 2;
    var empty: seq<Curve<V>> := [];
    assert empty + [c] == [c];
    assert Walk(graph, gid, marked, [], c, w) == Ok(Walker(marked[w := gid], [c], c));
    assert [c][1..] == [];
  }

  /** The turn of the unvisited vertex of a closed curve `c` that is the
      only curve there: the walk along `c` arrives back at the seed, which
      is visited, and closing the empty group fails. */
  lemma LoopTurn<V>(graph: Graph<V>, c: Curve<V>, gid: nat, visited: map<V, nat>)
    requires Closed(graph) && c.start == c.end
    requires c.start in graph && graph[c.start] == [c, c]
    requires c.start !in visited
    ensures IsSeed(graph, visited, c.start)
    ensures Spokes(graph, c.start, gid, visited[c.start := gid], [], graph[c.start]) == Err(EmptyGroup)
  {
    var marked := visited[c.start := gid];
    assert Walk(graph, gid, marked, [], c, Other(c, c.start)) == Ok(Walker(marked, [], c));
  }

  /** The pass up to the first key that is an end of `c`: both ends are
      still unvisited, and the whole pass goes on from there (or has already
      failed). */
  lemma LonePrefix<V>(curves: seq<Curve<V>>, c: Curve<V>) returns (i: nat)
    requires Lone(curves, c)
    ensures Closed(IncidenceMap(curves)) && Touching(IncidenceMap(curves)) && Apart(IncidenceMap(curves), c)
    ensures forall k :: k in InsertionOrder(curves) ==> k in IncidenceMap(curves)
    ensures i < |InsertionOrder(curves)| && Touches(c, InsertionOrder(curves)[i])
    ensures var graph, keys := IncidenceMap(curves), InsertionOrder(curves);
      var before := Pass(graph, keys[..i], map[], []);
      && (before.Err? ==> Tabulate(curves).Err?)
      && (before.Ok? ==>
            && Unvisited(before.value.visited, c)
            && Tabulate(curves) == Pass(graph, keys[i..], before.value.visited, before.value.grouped))
  {
    var graph, keys := IncidenceMap(curves), InsertionOrder(curves);
    IncidenceClosed(curves);
    LoneGraph(curves, c);
    i := FirstEnd(keys, c);
    assert keys == keys[..i] + keys[i..];
    PassSplit(graph, keys[..i], keys[i..], map[], []);
    if Pass(graph, keys[..i], map[], []).Ok? {
      PassAvoids(graph, c, keys[..i], map[], []);
    }
  }

  /** An open lone curve forms a group of its own: the first of its ends to
      come up among the keys is unvisited and has one curve, so it is a seed,
      and the walk along `c` stops at the other end, which has one curve
      too. */
  lemma LoneCurveGroup<V>(curves: seq<Curve<V>>, c: Curve<V>)
    requires Lone(curves, c) && c.start != c.end
    requires Tabulate(curves).Ok?
    ensures [c] in Tabulate(curves).value.grouped
  {
    var graph, keys := IncidenceMap(curves), InsertionOrder(curves);
    var i := LonePrefix(curves, c);
    var t := Pass(graph, keys[..i], map[], []).value;
    var v := keys[i];
    LoneList(curves, c, c.start);
    LoneList(curves, c, c.end);
    var gid := |t.grouped|;
    OpenTurn(graph, c, v, gid, t.visited);
    var after := t.visited[v := gid][Other(c, v) := gid];
    assert keys[i..][0] == v;
    assert Pass(graph, keys[i..], t.visited, t.grouped) == Pass(graph, keys[i..][1..], after, t.grouped + [[c]]);
    PassGrows(graph, keys[i..][1..], after, t.grouped + [[c]]);
    assert [c] in t.grouped + [[c]];
  }

  /** When the node succeeds, an open lone curve is among the ungrouped
      curves. */
  lemma LoneCurveUngrouped<V>(curves: seq<Curve<V>>, c: Curve<V>)
    requires Lone(curves, c) && c.start != c.end
    requires GroupCurvesSpec(Some(curves)).Ok?
    ensures c in GroupCurvesSpec(Some(curves)).value.ungrouped
  {
    LoneCurveGroup(curves, c);
    SplitGroupsSingles(Tabulate(curves).value.grouped);
  }

  /** A closed lone curve makes the node fail: its vertex, listing the curve
      twice, is a seed; the walk along the curve comes back to the seed,
      already visited, and closing the still empty group fails. */
  lemma LoneLoopFails<V>(curves: seq<Curve<V>>, c: Curve<V>)
    requires Lone(curves, c) && c.start == c.end
    ensures GroupCurvesSpec(Some(curves)).Err?
  {
    if |curves| >= 2 {
      var graph, keys := IncidenceMap(curves), InsertionOrder(curves);
      var i := LonePrefix(curves, c);
      if Pass(graph, keys[..i], map[], []).Ok? {
        var t := Pass(graph, keys[..i], map[], []).value;
        LoneList(curves, c, c.start);
        LoopTurn(graph, c, |t.grouped|, t.visited);
        assert keys[i..][0] == c.start;
      }
    }
  }
}
