/** path.go: the older single-path pipeline of the main package. Both endpoints are resolved
    when they lack a coordinate, snapped in their own input countries, routed by the native
    engine, and the path then gets its coordinates and summed distance from the database. */
module ViaPath {
  import opened Wrappers
  import opened Text
  import opened GeoTypes
  import GeoProcess
  import ViaAddress
  import GeoPath
  import PostgeoPath

  /** The native engine `dmatrix.Calc_path` and the decoding of its answer into one `Path`. */
  datatype SinglePathEngine = SinglePathEngine(
    calcPath: (string, string, int) -> string,
    parsePath: string -> Result<Path, string>)

  /** The engine's input `{"source":s,"target":t}`: the same object as a `NodeEdge`'s. */
  function PathInput(source: int, target: int): string
  {
    GeoPath.EdgeJson(NodeEdge(source, target))
  }

  /** The input names both nodes unambiguously. */
  lemma PathInputInjective(s1: int, t1: int, s2: int, t2: int)
    requires PathInput(s1, t1) == PathInput(s2, t2)
    ensures s1 == s2 && t1 == t2
  {
    assert PathInput(s1, t1) + "" == PathInput(s2, t2) + "";
    GeoPath.EdgeJsonInjective(NodeEdge(s1, t1), NodeEdge(s2, t2), "", "");
  }

  /** The text the engine answers for a request, after the brace repair. */
  function PathText(engine: SinglePathEngine, source: int, target: int, country: string, speedProfile: int): (s: string)
    ensures |s| > 0 && s[|s| - 1] == '}'
  {
    GeoProcess.CleanCppMessage(engine.calcPath(PathInput(source, target), country + "\0", speedProfile))
  }

  /** `CalculatePath`. The country is NUL-terminated but, unlike in the geo package, not
      lower-cased here: the caller does that. */
  function CalculatePath(engine: SinglePathEngine, source: int, target: int, country: string, speedProfile: int): (r: Result<Path, string>)
    ensures ToLower(country) == country ==>
      r == engine.parsePath(GeoProcess.CleanCppMessage(
        engine.calcPath(PathInput(source, target), GeoPath.EngineCountry(country), speedProfile)))
  {
    engine.parsePath(PathText(engine, source, target, country, speedProfile))
  }

  /** An engine that answers with the country it was given, and a decoder that reports the
      text it read. */
  const EchoEngine := SinglePathEngine((input, country, sp) => country + "}", text => Failure(text))

  /** Letter case does reach the engine here: an engine that echoes its country answers
      "Finland" and "finland" differently, where the geo package would not. */
  lemma CountryCaseReachesEngine(source: int, target: int, speedProfile: int)
    ensures CalculatePath(EchoEngine, source, target, "Finland", speedProfile) !=
            CalculatePath(EchoEngine, source, target, "finland", speedProfile)
  {
    var upper := "Finland" + "\0" + "}";
    var lower := "finland" + "\0" + "}";
    GeoProcess.CleanKeepsTerminated(upper);
    GeoProcess.CleanKeepsTerminated(lower);
    assert upper[0] != lower[0];
  }

  /** Given a lower-cased country, the engine sees exactly what the geo package would send it. */
  lemma PathCountryAsGeo(engine: SinglePathEngine, source: int, target: int, country: string, speedProfile: int)
    ensures PathText(engine, source, target, ToLower(country), speedProfile)
         == GeoProcess.CleanCppMessage(engine.calcPath(PathInput(source, target), GeoPath.EngineCountry(country), speedProfile))
  {
  }

  /** An endpoint without a coordinate is resolved, and a resolution error aborts; one with a
      coordinate is used as it is. The resolved location replaces the address, country included. */
  function Endpoint(db: GeoDB, loc: Location): (r: Result<Location, string>)
    ensures !IsMissingCoordinate(loc) ==> r == Success(loc)
    ensures IsMissingCoordinate(loc) ==>
      match ViaAddress.ResolveLocation(db, loc).err
      case Some(e) => r == Failure(e)
      case None => r == Success(ViaAddress.ResolveLocation(db, loc).location)
  {
    if !IsMissingCoordinate(loc) then Success(loc)
    else
      var resolved := ViaAddress.ResolveLocation(db, loc);
      if resolved.err.Some? then Failure(resolved.err.value) else Success(resolved.location)
  }

  /** The second half of the pipeline: route between two snapped nodes, then look up the
      path's coordinates and distance, all in the given (lower-cased) country. */
  function RouteSpec(db: GeoDB, engine: SinglePathEngine, srcNode: CHNode, trgNode: CHNode, country: string, speedProfile: int): Result<CoordinatePath, string>
  {
    match CalculatePath(engine, srcNode.id, trgNode.id, country, speedProfile)
    case Failure(e) => Failure(e)
    case Success(path) =>
      match db.coordinates(path.nodes, country)
      case Failure(e) => Failure(e)
      case Success(coords) =>
        match PostgeoPath.DistanceSpec(db.sumQuery, path.nodes, country)
        case Failure(e) => Failure(e)
        case Success(distance) => Success(CoordinatePath(distance, path.length, coords, false))
  }

  /** What `CalculateCoordinatePathFromAddresses` computes. The countries used for snapping are
      the input's, read before resolution may replace the addresses. */
  function FromAddressesSpec(db: GeoDB, engine: SinglePathEngine, source: Location, target: Location, speedProfile: int): Result<CoordinatePath, string>
  {
    var srcCountry, trgCountry := ToLower(source.address.country), ToLower(target.address.country);
    match Endpoint(db, source)
    case Failure(e) => Failure(e)
    case Success(src) =>
      match Endpoint(db, target)
      case Failure(e) => Failure(e)
      case Success(trg) =>
        match db.closestPoint(CoordOf(src), srcCountry)
        case Failure(e) => Failure(e)
        case Success(srcNode) =>
          match db.closestPoint(CoordOf(trg), trgCountry)
          case Failure(e) => Failure(e)
          case Success(trgNode) => RouteSpec(db, engine, srcNode, trgNode, srcCountry, speedProfile)
  }

  method CalculateCoordinatePathFromAddresses(db: GeoDB, engine: SinglePathEngine, source: Location, target: Location, speedProfile: int)
    returns (r: Result<CoordinatePath, string>)
    ensures r == FromAddressesSpec(db, engine, source, target, speedProfile)
  {
    var srcCountry := source.address.country;
    var trgCountry := target.address.country;
    var src := source;
    if IsMissingCoordinate(source) {
      var resolved := ViaAddress.ResolveLocation(db, source);
      if resolved.err.Some? {
        return Failure(resolved.err.value);
      }
      src := resolved.location;
    }
    var trg := target;
    if IsMissingCoordinate(target) {
      var resolved := ViaAddress.ResolveLocation(db, target);
      if resolved.err.Some? {
        return Failure(resolved.err.value);
      }
      trg := resolved.location;
    }
    var srcNode := db.closestPoint(Coord(src.coordinate.latitude, src.coordinate.longitude), ToLower(srcCountry));
    if srcNode.Failure? {
      return Failure(srcNode.error);
    }
    var trgNode := db.closestPoint(Coord(trg.coordinate.latitude, trg.coordinate.longitude), ToLower(trgCountry));
    if trgNode.Failure? {
      return Failure(trgNode.error);
    }
    var path := CalculatePath(engine, srcNode.value.id, trgNode.value.id, ToLower(srcCountry), speedProfile);
    if path.Failure? {
      return Failure(path.error);
    }
    var coordinateList := db.coordinates(path.value.nodes, ToLower(srcCountry));
    if coordinateList.Failure? {
      return Failure(coordinateList.error);
    }
    var distance := PostgeoPath.QueryDistance(db.sumQuery, path.value.nodes, ToLower(srcCountry));
    if distance.Failure? {
      return Failure(distance.error);
    }
    r := Success(CoordinatePath(distance.value, path.value.length, coordinateList.value, false));
  }

  /** A successful answer: both endpoints were resolved (where needed) and snapped, the source
      in its input country and the target in its own input country; the engine routed between
      the two nodes in the source's country; the result's time is the path's length, and its
      coordinates and distance are those of the path's nodes in the source's country. */
  lemma FromAddressesShape(db: GeoDB, engine: SinglePathEngine, source: Location, target: Location, speedProfile: int)
    requires FromAddressesSpec(db, engine, source, target, speedProfile).Success?
    ensures Endpoint(db, source).Success? && Endpoint(db, target).Success?
    ensures var srcCountry := ToLower(source.address.country);
      var srcNode := db.closestPoint(CoordOf(Endpoint(db, source).value), srcCountry);
      var trgNode := db.closestPoint(CoordOf(Endpoint(db, target).value), ToLower(target.address.country));
      var answer := FromAddressesSpec(db, engine, source, target, speedProfile).value;
      && srcNode.Success? && trgNode.Success?
      && var path := CalculatePath(engine, srcNode.value.id, trgNode.value.id, srcCountry, speedProfile);
         && path.Success?
         && answer.time == path.value.length
         && !answer.sameRoad
         && db.coordinates(path.value.nodes, srcCountry) == Success(answer.coords)
         && PostgeoPath.DistanceSpec(db.sumQuery, path.value.nodes, srcCountry) == Success(answer.distance)
  {
  }

  /** When the source lacks a coordinate and cannot be resolved, nothing else is asked of the
      database or the engine: the resolution error is the answer. */
  lemma SourceResolutionErrorAborts(db: GeoDB, engine: SinglePathEngine, source: Location, target: Location, speedProfile: int)
    requires IsMissingCoordinate(source) && ViaAddress.ResolveLocation(db, source).err.Some?
    ensures FromAddressesSpec(db, engine, source, target, speedProfile) == Failure(ViaAddress.ResolveLocation(db, source).err.value)
  {
  }

  /** Snapping reads the countries of the request, not those of the resolved addresses: two
      requests that differ only in what resolution would put in the addresses, but resolve to
      the same coordinates, get the same answer. */
  lemma SnapUsesRequestCountries(db: GeoDB, engine: SinglePathEngine, source: Location, target: Location, speedProfile: int, db': GeoDB)
    requires db'.closestPoint == db.closestPoint && db'.coordinates == db.coordinates && db'.sumQuery == db.sumQuery
    requires Endpoint(db, source).Success? && Endpoint(db', source).Success?
    requires Endpoint(db, target).Success? && Endpoint(db', target).Success?
    requires CoordOf(Endpoint(db, source).value) == CoordOf(Endpoint(db', source).value)
    requires CoordOf(Endpoint(db, target).value) == CoordOf(Endpoint(db', target).value)
    ensures FromAddressesSpec(db, engine, source, target, speedProfile) == FromAddressesSpec(db', engine, source, target, speedProfile)
  {
  }
}
