/** geo/path.go: the path pipeline of the geo package. Each requested edge has its endpoints
    resolved when they lack a coordinate and snapped to road nodes; the native engine computes
    the node paths of all edges at once; each path then gets its coordinates and its summed
    distance from the database. The engine, the JSON decoder and the database are oracles. */
module GeoPath {
  import opened Wrappers
  import opened Text
  import opened GeoTypes
  import GeoProcess
  import GeoAddress
  import PostgeoPath

  // ---------------------------------------------------------------------------------------
  // The engine's input: `json.Marshal` of a `[]NodeEdge`.

  const SourceKey := "{\"source\":"
  const TargetKey := "\"target\":"

  /** The JSON object of one `NodeEdge`: `{"source":S,"target":T}`. */
  function EdgeJson(e: NodeEdge): string
  {
    SourceKey + (IntToDecimal(e.source) + [','] + TargetField(e.target))
  }

  /** The second field of the object and the closing brace. */
  function TargetField(t: int): string
  {
    TargetKey + (IntToDecimal(t) + ['}'])
  }

  lemma EdgeJsonSplit(e: NodeEdge, x: string)
    ensures EdgeJson(e) + x == SourceKey + (IntToDecimal(e.source) + [','] + (TargetField(e.target) + x))
  {
    var d, t := IntToDecimal(e.source) + [','], TargetField(e.target);
    ConcatAssoc(SourceKey, d + t, x);
    ConcatAssoc(d, t, x);
  }

  lemma TargetFieldSplit(t: int, x: string)
    ensures TargetField(t) + x == TargetKey + (IntToDecimal(t) + ['}'] + x)
  {
    var d := IntToDecimal(t) + ['}'];
    ConcatAssoc(TargetKey, d, x);
  }

  /** The object of an edge ends where its text ends: it determines the edge and what follows. */
  lemma EdgeJsonInjective(e1: NodeEdge, e2: NodeEdge, x: string, y: string)
    requires EdgeJson(e1) + x == EdgeJson(e2) + y
    ensures e1 == e2 && x == y
  {
    var s1, s2 := IntToDecimal(e1.source), IntToDecimal(e2.source);
    var t1, t2 := IntToDecimal(e1.target), IntToDecimal(e2.target);
    NoSeparatorInDecimal(e1.source, ',');
    NoSeparatorInDecimal(e2.source, ',');
    NoSeparatorInDecimal(e1.target, '}');
    NoSeparatorInDecimal(e2.target, '}');
    EdgeJsonSplit(e1, x);
    EdgeJsonSplit(e2, y);
    AppendCancel(SourceKey, s1 + [','] + (TargetField(e1.target) + x), s2 + [','] + (TargetField(e2.target) + y));
    SeparatedEqual(s1, s2, ',', TargetField(e1.target) + x, TargetField(e2.target) + y);
    TargetFieldSplit(e1.target, x);
    TargetFieldSplit(e2.target, y);
    AppendCancel(TargetKey, t1 + ['}'] + x, t2 + ['}'] + y);
    SeparatedEqual(t1, t2, '}', x, y);
    IntDecimalInjective(e1.source, e2.source);
    IntDecimalInjective(e1.target, e2.target);
  }

  function EdgeObjects(es: seq<NodeEdge>): (objs: seq<string>)
    ensures |objs| == |es|
    decreases |es|
  {
    if es == [] then [] else [EdgeJson(es[0])] + EdgeObjects(es[1..])
  }

  /** `json.Marshal` of a slice of edges: `null` for the nil slice, an array otherwise. */
  function EdgeListJson(es: seq<NodeEdge>): string
  {
    if es == [] then "null" else "[" + Join(EdgeObjects(es), ",") + "]"
  }

  /** What follows the first object of a non-empty array. */
  function RestObjects(es: seq<NodeEdge>): (r: string)
    requires |es| >= 1
    ensures |r| == 0 <==> |es| == 1
  {
    if |es| == 1 then "" else "," + Join(EdgeObjects(es[1..]), ",")
  }

  lemma JoinEdgeObjects(es: seq<NodeEdge>)
    requires |es| >= 1
    ensures Join(EdgeObjects(es), ",") == EdgeJson(es[0]) + RestObjects(es)
  {
    if |es| == 1 {
      assert EdgeObjects(es) == [EdgeJson(es[0])];
    }
  }

  lemma {:induction false} EdgeObjectsDetermineEdges(es1: seq<NodeEdge>, es2: seq<NodeEdge>)
    requires |es1| >= 1 && |es2| >= 1
    requires Join(EdgeObjects(es1), ",") == Join(EdgeObjects(es2), ",")
    ensures es1 == es2
    decreases |es1|
  {
    JoinEdgeObjects(es1);
    JoinEdgeObjects(es2);
    EdgeJsonInjective(es1[0], es2[0], RestObjects(es1), RestObjects(es2));
    if |es1| == 1 {
      assert es1 == [es2[0]] == es2;
    } else {
      AppendCancel(",", Join(EdgeObjects(es1[1..]), ","), Join(EdgeObjects(es2[1..]), ","));
      EdgeObjectsDetermineEdges(es1[1..], es2[1..]);
      assert es1 == [es1[0]] + es1[1..] && es2 == [es2[0]] + es2[1..];
    }
  }

  lemma EdgeListJsonHead(es: seq<NodeEdge>)
    ensures EdgeListJson(es)[0] == if es == [] then 'n' else '['
  {
  }

  /** The engine is handed an encoding from which the edge list can be read back exactly:
      different edge lists give different inputs. */
  lemma EdgeListJsonInjective(es1: seq<NodeEdge>, es2: seq<NodeEdge>)
    requires EdgeListJson(es1) == EdgeListJson(es2)
    ensures es1 == es2
  {
    EdgeListJsonHead(es1);
    EdgeListJsonHead(es2);
    if es1 != [] {
      var j1, j2 := Join(EdgeObjects(es1), ","), Join(EdgeObjects(es2), ",");
      SuffixCancel("[" + j1, "[" + j2, "]");
      AppendCancel("[", j1, j2);
      EdgeObjectsDetermineEdges(es1, es2);
    }
  }

  // ---------------------------------------------------------------------------------------
  // `CalculatePaths`: the engine call and the repair of its output (lines 75-102).

  /** The native engine `ch.Calc_paths` and the decoding of its `{"edges": [...]}` answer. */
  datatype PathEngine = PathEngine(
    calcPaths: (string, string, int) -> string,
    parsePaths: string -> Result<seq<Path>, string>)

  /** The country as the engine takes it: lower-cased and NUL-terminated. */
  function EngineCountry(country: string): (c: string)
    ensures |c| == |country| + 1 && c[|country|] == '\0'
    ensures c[..|country|] == ToLower(country)
  {
    ToLower(country) + "\0"
  }

  /** The suffix repair: the engine's answer is closed with `]}` unless it already ends in `]}]}`. */
  function PatchSuffix(res: string): (out: string)
    ensures out == res || out == res + "]}"
    ensures out == res <==> HasSuffix(res, "]}]}")
  {
    if HasSuffix(res, "]}]}") then res else res + "]}"
  }

  /** Whatever the engine answers, the decoder is given text ending in `]}`, and an answer that
      already closes both the array and the object reaches it unchanged apart from cleaning. */
  lemma PatchedAnswerCloses(res: string)
    ensures HasSuffix(PatchSuffix(GeoProcess.CleanCppMessage(res)), "]}")
    ensures HasSuffix(res, "]}]}") ==> PatchSuffix(GeoProcess.CleanCppMessage(res)) == res
  {
    var cleaned := GeoProcess.CleanCppMessage(res);
    if HasSuffix(res, "]}]}") {
      assert res[|res| - 1] == '}';
      assert cleaned == res;
    } else if !HasSuffix(cleaned, "]}]}") {
      assert (cleaned + "]}")[|cleaned + "]}"| - 2..] == "]}";
    }
  }

  /** The text handed to the decoder. */
  function PathsText(engine: PathEngine, nodeEdges: seq<NodeEdge>, country: string, speedProfile: int): string
  {
    PatchSuffix(GeoProcess.CleanCppMessage(engine.calcPaths(EdgeListJson(nodeEdges), EngineCountry(country), speedProfile)))
  }

  /** `CalculatePaths`: the decoder reads the repaired answer, which always ends in `]}`, and
      the country reaches the engine only in lower case. */
  function CalculatePaths(engine: PathEngine, nodeEdges: seq<NodeEdge>, country: string, speedProfile: int): (r: Result<seq<Path>, string>)
    ensures r == engine.parsePaths(PathsText(engine, nodeEdges, ToLower(country), speedProfile))
    ensures HasSuffix(PathsText(engine, nodeEdges, country, speedProfile), "]}")
  {
    ToLowerIdempotent(country);
    PatchedAnswerCloses(engine.calcPaths(EdgeListJson(nodeEdges), EngineCountry(country), speedProfile));
    engine.parsePaths(PathsText(engine, nodeEdges, country, speedProfile))
  }

  /** Countries that differ only in letter case give the same paths; in particular lower-casing
      the country before the call, as `CalculateCoordinatePaths` does, changes nothing. */
  lemma PathsIgnoreCountryCase(engine: PathEngine, nodeEdges: seq<NodeEdge>, c1: string, c2: string, speedProfile: int)
    requires ToLower(c1) == ToLower(c2)
    ensures CalculatePaths(engine, nodeEdges, c1, speedProfile) == CalculatePaths(engine, nodeEdges, c2, speedProfile)
    ensures CalculatePaths(engine, nodeEdges, ToLower(c1), speedProfile) == CalculatePaths(engine, nodeEdges, c1, speedProfile)
  {
    ToLowerIdempotent(c1);
  }

  // ---------------------------------------------------------------------------------------
  // Resolving and snapping the endpoints of one edge (lines 55-73 and 107-138).

  /** An endpoint without a coordinate is resolved and keeps the country it was given; one with
      a coordinate is used as it is. */
  function Endpoint(db: GeoDB, loc: Location): (r: Result<Location, string>)
    ensures !IsMissingCoordinate(loc) ==> r == Success(loc)
    ensures IsMissingCoordinate(loc) ==> (r.Failure? <==> GeoAddress.ResolveLocation(db, loc).err.Some?)
    ensures IsMissingCoordinate(loc) && r.Success? ==>
      r.value.coordinate == GeoAddress.ResolveLocation(db, loc).location.coordinate
    ensures r.Success? ==> r.value.address.country == loc.address.country
  {
    if !IsMissingCoordinate(loc) then Success(loc)
    else
      var resolved := GeoAddress.ResolveLocation(db, loc);
      var located := resolved.location.(address := resolved.location.address.(country := loc.address.country));
      if resolved.err.Some? then Failure(resolved.err.value) else Success(located)
  }

  /** `CorrectCoordinates`: both endpoints are snapped in the source's lower-cased country, the
      source first; the first error is returned. */
  function CorrectCoordinates(db: GeoDB, source: Location, target: Location): (r: Result<(CHNode, CHNode), string>)
    ensures var country := ToLower(source.address.country);
      var s, t := db.closestPoint(CoordOf(source), country), db.closestPoint(CoordOf(target), country);
      && (r.Success? <==> s.Success? && t.Success?)
      && (r.Success? ==> r.value == (s.value, t.value))
      && (s.Failure? ==> r == Failure(s.error))
      && (s.Success? && t.Failure? ==> r == Failure(t.error))
  {
    var country := ToLower(source.address.country);
    match db.closestPoint(CoordOf(source), country)
    case Failure(e) => Failure(e)
    case Success(srcNode) =>
      match db.closestPoint(CoordOf(target), country)
      case Failure(e) => Failure(e)
      case Success(trgNode) => Success((srcNode, trgNode))
  }

  /** The target's own country plays no part in snapping. */
  lemma SnapIgnoresTargetCountry(db: GeoDB, source: Location, target: Location, country: string)
    ensures CorrectCoordinates(db, source, target)
         == CorrectCoordinates(db, source, target.(address := target.address.(country := country)))
  {
  }

  /** The node edge of one requested edge. */
  function EdgeNode(db: GeoDB, edge: Edge): (r: Result<NodeEdge, string>)
    ensures r.Success? ==>
      && Endpoint(db, edge.source).Success? && Endpoint(db, edge.target).Success?
      && var country := ToLower(edge.source.address.country);
         && db.closestPoint(CoordOf(Endpoint(db, edge.source).value), country).Success?
         && db.closestPoint(CoordOf(Endpoint(db, edge.source).value), country).value.id == r.value.source
         && db.closestPoint(CoordOf(Endpoint(db, edge.target).value), country).Success?
         && db.closestPoint(CoordOf(Endpoint(db, edge.target).value), country).value.id == r.value.target
  {
    match Endpoint(db, edge.source)
    case Failure(e) => Failure(e)
    case Success(source) =>
      match Endpoint(db, edge.target)
      case Failure(e) => Failure(e)
      case Success(target) =>
        match CorrectCoordinates(db, source, target)
        case Failure(e) => Failure(e)
        case Success(nodes) => Success(NodeEdge(nodes.0.id, nodes.1.id))
  }

  function EdgeNodeOf(db: GeoDB): Edge -> Result<NodeEdge, string>
  {
    e => EdgeNode(db, e)
  }

  // ---------------------------------------------------------------------------------------
  // A loop over a slice that stops at the first error.

  /** Applies `f` to every element in order, stopping at the first error. */
  function Traverse<A, B>(f: A -> Result<B, string>, xs: seq<A>): (r: Result<seq<B>, string>)
    ensures r.Success? ==> |r.value| == |xs|
    decreases |xs|
  {
    if xs == [] then Success([])
    else
      match Traverse(f, xs[..|xs| - 1])
      case Failure(e) => Failure(e)
      case Success(ys) =>
        match f(xs[|xs| - 1])
        case Failure(e) => Failure(e)
        case Success(y) => Success(ys + [y])
  }

  /** The traversal succeeds exactly when every element does, and then holds their results in
      order. */
  lemma {:induction false} TraverseSuccess<A, B>(f: A -> Result<B, string>, xs: seq<A>)
    ensures Traverse(f, xs).Success? <==> forall i :: 0 <= i < |xs| ==> f(xs[i]).Success?
    ensures Traverse(f, xs).Success? ==> forall i :: 0 <= i < |xs| ==> Traverse(f, xs).value[i] == f(xs[i]).value
    decreases |xs|
  {
    if xs != [] {
      var init := xs[..|xs| - 1];
      TraverseSuccess(f, init);
      assert forall i :: 0 <= i < |init| ==> init[i] == xs[i];
    }
  }

  /** A failing traversal reports the error of the first element that fails. */
  lemma {:induction false} TraverseFirstFailure<A, B>(f: A -> Result<B, string>, xs: seq<A>)
    requires Traverse(f, xs).Failure?
    ensures exists i :: (0 <= i < |xs| && f(xs[i]) == Failure(Traverse(f, xs).error)
      && forall j :: 0 <= j < i ==> f(xs[j]).Success?)
    decreases |xs|
  {
    var init := xs[..|xs| - 1];
    assert forall i :: 0 <= i < |init| ==> init[i] == xs[i];
    if Traverse(f, init).Failure? {
      TraverseFirstFailure(f, init);
      var i :| 0 <= i < |init| && f(init[i]) == Failure(Traverse(f, init).error)
        && forall j :: 0 <= j < i ==> f(init[j]).Success?;
      assert f(xs[i]) == Failure(Traverse(f, xs).error);
    } else {
      TraverseSuccess(f, init);
      assert f(xs[|xs| - 1]) == Failure(Traverse(f, xs).error);
    }
  }

  /** Once a prefix fails, the whole traversal fails with the same error. */
  lemma {:induction false} TraversePrefixFailure<A, B>(f: A -> Result<B, string>, xs: seq<A>, n: nat)
    requires n <= |xs|
    requires Traverse(f, xs[..n]).Failure?
    ensures Traverse(f, xs) == Traverse(f, xs[..n])
    decreases |xs| - n
  {
    if n < |xs| {
      assert xs[..n + 1][..n] == xs[..n];
      TraversePrefixFailure(f, xs, n + 1);
    } else {
      assert xs[..n] == xs;
    }
  }

  /** The loop of lines 107-138: the node edge of every requested edge, in order. */
  method CollectNodeEdges(db: GeoDB, input: seq<Edge>) returns (r: Result<seq<NodeEdge>, string>)
    ensures r == Traverse(EdgeNodeOf(db), input)
  {
    var edges: seq<NodeEdge> := [];
    for i := 0 to |input|
      invariant Traverse(EdgeNodeOf(db), input[..i]) == Success(edges)
    {
      var edge := input[i];
      assert input[..i + 1][..i] == input[..i];
      var source := edge.source;
      if IsMissingCoordinate(edge.source) {
        var resolved := GeoAddress.ResolveLocation(db, edge.source);
        source := resolved.location.(address := resolved.location.address.(country := edge.source.address.country));
        if resolved.err.Some? {
          TraversePrefixFailure(EdgeNodeOf(db), input, i + 1);
          return Failure(resolved.err.value);
        }
      }
      var target := edge.target;
      if IsMissingCoordinate(edge.target) {
        var resolved := GeoAddress.ResolveLocation(db, edge.target);
        target := resolved.location.(address := resolved.location.address.(country := edge.target.address.country));
        if resolved.err.Some? {
          TraversePrefixFailure(EdgeNodeOf(db), input, i + 1);
          return Failure(resolved.err.value);
        }
      }
      var nodes := CorrectCoordinates(db, source, target);
      if nodes.Failure? {
        TraversePrefixFailure(EdgeNodeOf(db), input, i + 1);
        return Failure(nodes.error);
      }
      edges := edges + [NodeEdge(nodes.value.0.id, nodes.value.1.id)];
    }
    assert input[..|input|] == input;
    r := Success(edges);
  }

  // ---------------------------------------------------------------------------------------
  // From node paths to coordinate paths (lines 147-165).

  /** The coordinates and the distance of one engine path, its time being the path's length. */
  function CoordinatePathFor(db: GeoDB, country: string, p: Path): (r: Result<CoordinatePath, string>)
    ensures r.Success? <==>
      db.coordinates(p.nodes, country).Success? && PostgeoPath.DistanceSpec(db.sumQuery, p.nodes, country).Success?
    ensures r.Success? ==>
      r.value == CoordinatePath(PostgeoPath.DistanceSpec(db.sumQuery, p.nodes, country).value, p.length,
                                db.coordinates(p.nodes, country).value, false)
  {
    match db.coordinates(p.nodes, country)
    case Failure(e) => Failure(e)
    case Success(coords) =>
      match PostgeoPath.DistanceSpec(db.sumQuery, p.nodes, country)
      case Failure(e) => Failure(e)
      case Success(distance) => Success(CoordinatePath(distance, p.length, coords, false))
  }

  function CoordinatePathOf(db: GeoDB, country: string): Path -> Result<CoordinatePath, string>
  {
    p => CoordinatePathFor(db, country, p)
  }

  method CollectCoordinatePaths(db: GeoDB, country: string, nodePaths: seq<Path>) returns (r: Result<seq<CoordinatePath>, string>)
    ensures r == Traverse(CoordinatePathOf(db, country), nodePaths)
  {
    var paths: seq<CoordinatePath> := [];
    for i := 0 to |nodePaths|
      invariant Traverse(CoordinatePathOf(db, country), nodePaths[..i]) == Success(paths)
    {
      var nodePath := nodePaths[i];
      assert nodePaths[..i + 1][..i] == nodePaths[..i];
      var coordinateList := db.coordinates(nodePath.nodes, country);
      if coordinateList.Failure? {
        TraversePrefixFailure(CoordinatePathOf(db, country), nodePaths, i + 1);
        return Failure(coordinateList.error);
      }
      var distance := PostgeoPath.QueryDistance(db.sumQuery, nodePath.nodes, country);
      if distance.Failure? {
        TraversePrefixFailure(CoordinatePathOf(db, country), nodePaths, i + 1);
        return Failure(distance.error);
      }
      paths := paths + [CoordinatePath(distance.value, nodePath.length, coordinateList.value, false)];
    }
    assert nodePaths[..|nodePaths|] == nodePaths;
    r := Success(paths);
  }

  // ---------------------------------------------------------------------------------------
  // `CalculateCoordinatePaths` (lines 104-166).

  /** The country of the whole request: that of the first edge's source, lower-cased. */
  function RequestCountry(input: PathsInput): string
    requires |input.edges| > 0
  {
    ToLower(input.edges[0].source.address.country)
  }

  /** What `CalculateCoordinatePaths` computes: node edges, then engine paths, then coordinate
      paths, any error aborting. */
  function CoordinatePathsSpec(db: GeoDB, engine: PathEngine, input: PathsInput): Result<seq<CoordinatePath>, string>
    requires |input.edges| > 0
  {
    match Traverse(EdgeNodeOf(db), input.edges)
    case Failure(e) => Failure(e)
    case Success(nodeEdges) =>
      match CalculatePaths(engine, nodeEdges, RequestCountry(input), input.speedProfile)
      case Failure(e) => Failure(e)
      case Success(nodePaths) => Traverse(CoordinatePathOf(db, RequestCountry(input)), nodePaths)
  }

  method CalculateCoordinatePaths(db: GeoDB, engine: PathEngine, input: PathsInput) returns (r: Result<seq<CoordinatePath>, string>)
    requires |input.edges| > 0
    ensures r == CoordinatePathsSpec(db, engine, input)
  {
    var edges := CollectNodeEdges(db, input.edges);
    if edges.Failure? {
      return Failure(edges.error);
    }
    var country := ToLower(input.edges[0].source.address.country);
    var nodePaths := CalculatePaths(engine, edges.value, country, input.speedProfile);
    if nodePaths.Failure? {
      return Failure(nodePaths.error);
    }
    r := CollectCoordinatePaths(db, country, nodePaths.value);
  }

  /** A successful answer has one coordinate path per engine path, in the engine's order: its
      time is the path's length, its coordinates and distance those of the path's nodes in the
      request country; and every requested edge was resolved and snapped. */
  lemma CoordinatePathsShape(db: GeoDB, engine: PathEngine, input: PathsInput)
    requires |input.edges| > 0
    requires CoordinatePathsSpec(db, engine, input).Success?
    ensures Traverse(EdgeNodeOf(db), input.edges).Success?
    ensures forall i :: 0 <= i < |input.edges| ==> EdgeNode(db, input.edges[i]).Success?
    ensures var nodeEdges := Traverse(EdgeNodeOf(db), input.edges).value;
      var country := RequestCountry(input);
      var nodePaths := CalculatePaths(engine, nodeEdges, country, input.speedProfile);
      var paths := CoordinatePathsSpec(db, engine, input).value;
      && nodePaths.Success?
      && |paths| == |nodePaths.value|
      && forall i :: 0 <= i < |paths| ==>
           && paths[i].time == nodePaths.value[i].length
           && !paths[i].sameRoad
           && db.coordinates(nodePaths.value[i].nodes, country) == Success(paths[i].coords)
           && PostgeoPath.DistanceSpec(db.sumQuery, nodePaths.value[i].nodes, country) == Success(paths[i].distance)
  {
    var f := EdgeNodeOf(db);
    TraverseSuccess(f, input.edges);
    assert forall i :: 0 <= i < |input.edges| ==> f(input.edges[i]) == EdgeNode(db, input.edges[i]);
    var nodeEdges := Traverse(f, input.edges).value;
    var country := RequestCountry(input);
    var nodePaths := CalculatePaths(engine, nodeEdges, country, input.speedProfile).value;
    var g := CoordinatePathOf(db, country);
    TraverseSuccess(g, nodePaths);
    assert forall i :: 0 <= i < |nodePaths| ==> g(nodePaths[i]) == CoordinatePathFor(db, country, nodePaths[i]);
  }

  /** A failed answer carries the error of the first requested edge that could not be resolved
      or snapped, when there is one. */
  lemma CoordinatePathsFirstEdgeError(db: GeoDB, engine: PathEngine, input: PathsInput)
    requires |input.edges| > 0
    requires Traverse(EdgeNodeOf(db), input.edges).Failure?
    ensures CoordinatePathsSpec(db, engine, input).Failure?
    ensures exists i :: (0 <= i < |input.edges|
      && EdgeNode(db, input.edges[i]) == Failure(CoordinatePathsSpec(db, engine, input).error)
      && forall j :: 0 <= j < i ==> EdgeNode(db, input.edges[j]).Success?)
  {
    var f := EdgeNodeOf(db);
    TraverseFirstFailure(f, input.edges);
    assert forall i :: 0 <= i < |input.edges| ==> f(input.edges[i]) == EdgeNode(db, input.edges[i]);
  }
}
