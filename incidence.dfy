/** `Curves.CurvesDependency`: the incidence map from each endpoint vertex to
    the curves that start or end there, and the order in which the map's
    keys were first inserted (the order a `Dictionary` that is only ever
    added to enumerates them in). */
module Incidence {
  import opened Geometry

  /** Adds `x` to a key order unless it is already a key. */
  function AddKey<V(==)>(keys: seq<V>, x: V): seq<V>
  {
    if x in keys then keys else keys + [x]
  }

  /** The keys of the incidence map of `curves`, in first-insertion order:
      per curve, its start and then its end. */
  function InsertionOrder<V(==)>(curves: seq<Curve<V>>): seq<V>
  {
    if curves == [] then []
    else
      var c := curves[|curves| - 1];
      AddKey(AddKey(InsertionOrder(curves[..|curves| - 1]), c.start), c.end)
  }

  /** The list the incidence map holds at `v`: each curve, in input order,
      once for its start and once for its end when these are `v`. */
  function Incident<V(==)>(curves: seq<Curve<V>>, v: V): seq<Curve<V>>
  {
    if curves == [] then []
    else
      var c := curves[|curves| - 1];
      Incident(curves[..|curves| - 1], v)
        + (if c.start == v then [c] else [])
        + (if c.end == v then [c] else [])
  }

  function IncidenceMap<V(==)>(curves: seq<Curve<V>>): map<V, seq<Curve<V>>>
  {
    map v | v in InsertionOrder(curves) :: Incident(curves, v)
  }

  ghost predicate IsEndpoint<V>(curves: seq<Curve<V>>, v: V)
  {
    exists i :: 0 <= i < |curves| && (curves[i].start == v || curves[i].end == v)
  }

  /** Sum of the list lengths over `keys`. */
  function Degrees<V(==)>(keys: seq<V>, curves: seq<Curve<V>>): nat
  {
    if keys == [] then 0 else |Incident(curves, keys[0])| + Degrees(keys[1..], curves)
  }

  /** `graph` after recording `c` in the list of `v`. */
  function Attached<V(==)>(graph: map<V, seq<Curve<V>>>, v: V, c: Curve<V>): map<V, seq<Curve<V>>>
  {
    graph[v := if v in graph then graph[v] + [c] else [c]]
  }

  /** Records `c` in the list of `v`, adding `v` as a new key when it has no
      list yet (TryGetValue, then Add to the list or to the map). */
  method Attach<V(==)>(graph: map<V, seq<Curve<V>>>, keys: seq<V>, v: V, c: Curve<V>)
    returns (graph': map<V, seq<Curve<V>>>, keys': seq<V>)
    requires forall u :: u in graph <==> u in keys
    ensures keys' == AddKey(keys, v)
    ensures forall u :: u in graph' <==> u in keys'
    ensures graph' == Attached(graph, v, c)
  {
    if v in graph {
      graph', keys' := graph[v := graph[v] + [c]], keys;
    } else {
      graph', keys' := graph[v := [c]], keys + [v];
    }
  }

  /** `graph` and `keys` are the incidence map and key order after the
      curves of `done`. */
  ghost predicate Tracks<V>(graph: map<V, seq<Curve<V>>>, keys: seq<V>, done: seq<Curve<V>>)
  {
    && keys == InsertionOrder(done)
    && (forall v :: v in graph ==> v in keys)
    && (forall v :: v in keys ==> v in graph)
    && (forall v :: v in graph ==> graph[v] == Incident(done, v))
  }

  /** Recording a curve at its start and then at its end takes the map and
      key order of `done` to those of `done + [c]`. */
  lemma AttachedTracks<V>(graph: map<V, seq<Curve<V>>>, keys: seq<V>, done: seq<Curve<V>>, c: Curve<V>)
    requires Tracks(graph, keys, done)
    ensures Tracks(Attached(Attached(graph, c.start, c), c.end, c), AddKey(AddKey(keys, c.start), c.end), done + [c])
  {
    AttachedKeys(graph, keys, done, c);
    AttachedLists(graph, keys, done, c);
  }

  /** The keys after recording `c`: the key order of `done + [c]`. */
  lemma AttachedKeys<V>(graph: map<V, seq<Curve<V>>>, keys: seq<V>, done: seq<Curve<V>>, c: Curve<V>)
    requires Tracks(graph, keys, done)
    ensures var graph', keys' := Attached(Attached(graph, c.start, c), c.end, c), AddKey(AddKey(keys, c.start), c.end);
      && keys' == InsertionOrder(done + [c])
      && (forall v :: v in graph' ==> v in keys')
      && (forall v :: v in keys' ==> v in graph')
  {
    assert (done + [c])[..|done|] == done;
  }

  /** The lists after recording `c`: those of `done + [c]`. */
  lemma AttachedLists<V>(graph: map<V, seq<Curve<V>>>, keys: seq<V>, done: seq<Curve<V>>, c: Curve<V>)
    requires Tracks(graph, keys, done)
    ensures var graph' := Attached(Attached(graph, c.start, c), c.end, c);
      forall v :: v in graph' ==> graph'[v] == Incident(done + [c], v)
  {
    var graph' := Attached(Attached(graph, c.start, c), c.end, c);
    forall v | v in graph' ensures graph'[v] == Incident(done + [c], v) {
      if v !in graph {
        IncidentEmpty(done, v);
      }
      AttachedAt(graph, done, c, v);
    }
  }

  /** The list at one vertex after recording `c` at both of its ends. */
  lemma AttachedAt<V>(graph: map<V, seq<Curve<V>>>, done: seq<Curve<V>>, c: Curve<V>, v: V)
    requires v in graph ==> graph[v] == Incident(done, v)
    requires v !in graph ==> Incident(done, v) == []
    requires v in Attached(Attached(graph, c.start, c), c.end, c)
    ensures Attached(Attached(graph, c.start, c), c.end, c)[v] == Incident(done + [c], v)
  {
    IncidentSnoc(done, c, v);
  }

  /** A map and key order that track all the curves are the incidence map. */
  lemma TracksAll<V>(graph: map<V, seq<Curve<V>>>, keys: seq<V>, curves: seq<Curve<V>>)
    requires Tracks(graph, keys, curves)
    ensures graph == IncidenceMap(curves)
  {
  }

  /** Builds the incidence map in one pass over the curves. */
  method CurvesDependency<V(==)>(curves: seq<Curve<V>>) returns (graph: map<V, seq<Curve<V>>>, keys: seq<V>)
    ensures keys == InsertionOrder(curves)
    ensures graph == IncidenceMap(curves)
  {
    graph, keys := map[], [];
    for i := 0 to |curves|
      invariant Tracks(graph, keys, curves[..i])
    {
      var curve := curves[i];
      assert curves[..i + 1] == curves[..i] + [curve];
      AttachedTracks(graph, keys, curves[..i], curve);
      graph, keys := Attach(graph, keys, curve.start, curve);
      graph, keys := Attach(graph, keys, curve.end, curve);
    }
    assert curves[..|curves|] == curves;
    TracksAll(graph, keys, curves);
  }

  /** Incident, unfolded on a last curve. */
  lemma IncidentSnoc<V>(curves: seq<Curve<V>>, c: Curve<V>, v: V)
    ensures Incident(curves + [c], v) == Incident(curves, v) + (if c.start == v then [c] else []) + (if c.end == v then [c] else [])
  {
    assert (curves + [c])[..|curves|] == curves;
  }

  /** The keys are exactly the endpoints of the curves. */
  lemma {:induction false} InsertionOrderKeys<V>(curves: seq<Curve<V>>, v: V)
    ensures v in InsertionOrder(curves) <==> IsEndpoint(curves, v)
  {
    if curves != [] {
      var n := |curves| - 1;
      var last := curves[n];
      InsertionOrderKeys(curves[..n], v);
      assert v in InsertionOrder(curves) <==> v in InsertionOrder(curves[..n]) || last.start == v || last.end == v;
      assert IsEndpoint(curves, v) <==> IsEndpoint(curves[..n], v) || last.start == v || last.end == v by {
        if IsEndpoint(curves[..n], v) {
          var i :| 0 <= i < n && (curves[..n][i].start == v || curves[..n][i].end == v);
          assert curves[i] == curves[..n][i];
        }
        if IsEndpoint(curves, v) {
          var i :| 0 <= i < |curves| && (curves[i].start == v || curves[i].end == v);
          if i < n {
            assert curves[..n][i] == curves[i];
          }
        }
      }
    }
  }

  /** No key is inserted twice. */
  lemma {:induction false} InsertionOrderDistinct<V>(curves: seq<Curve<V>>)
    ensures forall i, j :: 0 <= i < j < |InsertionOrder(curves)| ==> InsertionOrder(curves)[i] != InsertionOrder(curves)[j]
  {
    if curves != [] {
      InsertionOrderDistinct(curves[..|curves| - 1]);
    }
  }

  /** A vertex has an empty list exactly when it is not a key: no list in
      the map is empty. */
  lemma {:induction false} IncidentEmpty<V>(curves: seq<Curve<V>>, v: V)
    ensures Incident(curves, v) == [] <==> v !in InsertionOrder(curves)
  {
    if curves != [] {
      IncidentEmpty(curves[..|curves| - 1], v);
    }
  }

  /** Each curve is listed at `v` once per occurrence in the input and per
      endpoint equal to `v`: twice for a curve that starts and ends at `v`,
      never for a curve that does not touch `v`. */
  lemma {:induction false} IncidentCount<V>(curves: seq<Curve<V>>, v: V, c: Curve<V>)
    ensures multiset(Incident(curves, v))[c]
      == (if c.start == v then multiset(curves)[c] else 0) + (if c.end == v then multiset(curves)[c] else 0)
  {
    if curves != [] {
      var n := |curves| - 1;
      var prefix, last := curves[..n], curves[n];
      IncidentCount(prefix, v, c);
      assert curves == prefix + [last];
      IncidentSnoc(prefix, last, v);
      CountSnoc(prefix, last, c);
      CountStep(Incident(prefix, v), last, v, c);
    }
  }

  /** Appending `x` adds one occurrence of `x`. */
  lemma CountSnoc<T>(s: seq<T>, x: T, c: T)
    ensures multiset(s + [x])[c] == multiset(s)[c] + (if x == c then 1 else 0)
  {
    assert multiset(s + [x]) == multiset(s) + multiset{x};
  }

  /** Appending a curve's contributions at `v` to a list. */
  lemma CountStep<V>(list: seq<Curve<V>>, last: Curve<V>, v: V, c: Curve<V>)
    ensures multiset(list + (if last.start == v then [last] else []) + (if last.end == v then [last] else []))[c]
      == multiset(list)[c] + (if last == c && c.start == v then 1 else 0) + (if last == c && c.end == v then 1 else 0)
  {
    var head := if last.start == v then [last] else [];
    var tail := if last.end == v then [last] else [];
    assert multiset(list + head + tail) == multiset(list) + multiset(head) + multiset(tail);
  }

  /** A listed curve is an input curve with an endpoint at `v`, and each
      input curve is listed at both of its endpoints. */
  lemma {:induction false} IncidentMembers<V>(curves: seq<Curve<V>>, v: V, c: Curve<V>)
    ensures c in Incident(curves, v) <==> c in curves && (c.start == v || c.end == v)
  {
    IncidentCount(curves, v, c);
    assert c in Incident(curves, v) <==> multiset(Incident(curves, v))[c] > 0;
    assert c in curves <==> multiset(curves)[c] > 0;
  }

  /** The lists follow the input order: the list for a concatenation is the
      concatenation of the lists. */
  lemma {:induction false} IncidentAppend<V>(a: seq<Curve<V>>, b: seq<Curve<V>>, v: V)
    ensures Incident(a + b, v) == Incident(a, v) + Incident(b, v)
  {
    if b == [] {
      assert a + b == a;
    } else {
      var n := |b| - 1;
      assert (a + b)[..|a + b| - 1] == a + b[..n];
      IncidentAppend(a, b[..n], v);
    }
  }

  lemma {:induction false} DegreesNoCurves<V>(keys: seq<V>)
    ensures Degrees(keys, []) == 0
  {
    if keys != [] {
      DegreesNoCurves(keys[1..]);
    }
  }

  /** Adding one curve raises the sum by the number of its endpoints among the keys. */
  lemma {:induction false} DegreesStep<V>(keys: seq<V>, curves: seq<Curve<V>>, c: Curve<V>)
    requires forall i, j :: 0 <= i < j < |keys| ==> keys[i] != keys[j]
    requires c.start in keys && c.end in keys
    ensures Degrees(keys, curves + [c]) == Degrees(keys, curves) + 2
  {
    var n := |curves + [c]| - 1;
    assert (curves + [c])[..n] == curves;
    DegreesHits(keys, curves, c);
    HitsOnce(keys, c.start);
    HitsOnce(keys, c.end);
  }

  function Hits<V(==)>(keys: seq<V>, x: V): nat
  {
    if keys == [] then 0 else (if keys[0] == x then 1 else 0) + Hits(keys[1..], x)
  }

  lemma {:induction false} DegreesHits<V>(keys: seq<V>, curves: seq<Curve<V>>, c: Curve<V>)
    ensures Degrees(keys, curves + [c]) == Degrees(keys, curves) + Hits(keys, c.start) + Hits(keys, c.end)
  {
    if keys != [] {
      var n := |curves + [c]| - 1;
      assert (curves + [c])[..n] == curves;
      DegreesHits(keys[1..], curves, c);
    }
  }

  lemma {:induction false} HitsOnce<V>(keys: seq<V>, x: V)
    requires forall i, j :: 0 <= i < j < |keys| ==> keys[i] != keys[j]
    ensures Hits(keys, x) == if x in keys then 1 else 0
  {
    if keys != [] {
      HitsOnce(keys[1..], x);
      if keys[0] == x {
        assert x !in keys[1..] by {
          forall j | 0 <= j < |keys[1..]| ensures keys[1..][j] != x {
            assert keys[1..][j] == keys[j + 1];
          }
        }
      }
    }
  }

  /** Over any duplicate-free key list that covers every endpoint, the list
      lengths sum to twice the number of curves. */
  lemma {:induction false} DegreesCover<V>(keys: seq<V>, curves: seq<Curve<V>>)
    requires forall i, j :: 0 <= i < j < |keys| ==> keys[i] != keys[j]
    requires forall c :: c in curves ==> c.start in keys && c.end in keys
    ensures Degrees(keys, curves) == 2 * |curves|
  {
    if curves == [] {
      DegreesNoCurves(keys);
    } else {
      var n := |curves| - 1;
      assert curves == curves[..n] + [curves[n]];
      DegreesCover(keys, curves[..n]);
      DegreesStep(keys, curves[..n], curves[n]);
    }
  }

  /** The list lengths of the incidence map sum to 2 * |curves|. */
  lemma DegreeSum<V>(curves: seq<Curve<V>>)
    ensures Degrees(InsertionOrder(curves), curves) == 2 * |curves|
  {
    InsertionOrderDistinct(curves);
    forall c | c in curves ensures c.start in InsertionOrder(curves) && c.end in InsertionOrder(curves) {
      var i :| 0 <= i < |curves| && curves[i] == c;
      InsertionOrderKeys(curves, c.start);
      InsertionOrderKeys(curves, c.end);
    }
    DegreesCover(InsertionOrder(curves), curves);
  }
}
