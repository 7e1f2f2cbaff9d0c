/** api.go: the HTTP handlers that post, poll and fetch matrix computations and resolve
    locations. The web context is replaced by the `Outcome` a handler selects; request bodies
    arrive already decoded, and the job engine is the `SppServer.Server` (whose methods the
    handlers call as `CreateMatrixComputation` and `GetMatrixComputationProgress`). */
module Api {
  import opened Wrappers
  import opened Text
  import opened GeoTypes
  import opened JobStore
  import JobSpec
  import SppServer
  import ViaProcess
  import ViaAddress
  import GeoPath

  /** What a handler makes of the request. */
  datatype Outcome =
    | Aborted(status: int, message: string)       // `ctx.Abort`
    | Redirected(status: int, location: string)   // `ctx.Redirect`
    | Replied(body: string)                       // the handler's return value, with status 200
    | Crashed                                     // a run-time panic of the handler

  // ---------------------------------------------------------------------------------------
  // The speed-profile whitelist (lines 14-23).

  const AllowedSpeeds: seq<int> := [40, 60, 80, 100, 120]

  /** `contains`: a linear scan that stops at the first match. */
  method Contains(a: int, list: seq<int>) returns (found: bool)
    ensures found <==> a in list
  {
    for i := 0 to |list|
      invariant a !in list[..i]
    {
      if list[i] == a {
        return true;
      }
    }
    assert list[..|list|] == list;
    return false;
  }

  /** Every allowed speed profile fits the record's varint buffer. */
  lemma AllowedSpeedsFit(speedProfile: int)
    requires speedProfile in AllowedSpeeds
    ensures JobSpec.FitsVarintBuffer(speedProfile)
  {
  }

  // ---------------------------------------------------------------------------------------
  // The bounding-box check (lines 25-43, with the boxes of geo/boundaries.go).

  datatype BoundingBox = BoundingBox(longMin: real, longMax: real, latMin: real, latMax: real)

  const BoundingBoxes: map<string, BoundingBox> := map[
    "finland" := BoundingBox(20.54, 31.5867, 59.807983, 70.092283),
    "germany" := BoundingBox(5.8666667, 15.033333, 47.270108, 54.9)]

  /** The box of a country; one without a box reads Go's zero values. */
  function BoxOf(country: string): BoundingBox
  {
    if country in BoundingBoxes then BoundingBoxes[country] else BoundingBox(0.0, 0.0, 0.0, 0.0)
  }

  /** The `verify` closure: both bounds are inclusive. */
  predicate Inside(box: BoundingBox, c: Coord)
  {
    box.latMin <= c.lat <= box.latMax && box.longMin <= c.lon <= box.longMax
  }

  predicate Sane(matrix: seq<Coord>, country: string)
  {
    forall i :: 0 <= i < |matrix| ==> Inside(BoxOf(country), matrix[i])
  }

  /** The first index at or after `from` whose coordinate lies outside the box. */
  function FirstOutside(box: BoundingBox, matrix: seq<Coord>, from: nat): (r: Option<nat>)
    requires from <= |matrix|
    ensures r.None? <==> forall i :: from <= i < |matrix| ==> Inside(box, matrix[i])
    ensures r.Some? ==> (from <= r.value < |matrix| && !Inside(box, matrix[r.value])
      && forall j :: from <= j < r.value ==> Inside(box, matrix[j]))
    decreases |matrix| - from
  {
    if from == |matrix| then None
    else if !Inside(box, matrix[from]) then Some(from)
    else FirstOutside(box, matrix, from + 1)
  }

  /** `check_coordinate_sanity`: `None` for `(true, nil)`, or the index of the first
      coordinate outside the country's box, which its error names. */
  method CheckCoordinateSanity(matrix: seq<Coord>, country: string) returns (firstOutside: Option<nat>)
    ensures firstOutside == FirstOutside(BoxOf(country), matrix, 0)
    ensures firstOutside.None? <==> Sane(matrix, country)
  {
    var bbox := BoxOf(country);
    for i := 0 to |matrix|
      invariant FirstOutside(bbox, matrix, 0) == FirstOutside(bbox, matrix, i)
    {
      if !Inside(bbox, matrix[i]) {
        return Some(i);
      }
    }
    return None;
  }

  /** The cases of the bounding-box test table. */
  lemma BoundingBoxTable()
    ensures Sane([Coord(60.0, 25.0)], "finland")
    ensures !Sane([Coord(50.0, 25.0)], "finland")
    ensures !Sane([Coord(61.0, 19.0)], "finland")
    ensures Sane([Coord(50.0, 10.0)], "germany")
    ensures !Sane([Coord(45.0, 10.0)], "germany")
    ensures !Sane([Coord(50.0, 4.05)], "germany")
  {
    assert !Inside(BoxOf("finland"), [Coord(50.0, 25.0)][0]);
    assert !Inside(BoxOf("finland"), [Coord(61.0, 19.0)][0]);
    assert !Inside(BoxOf("germany"), [Coord(45.0, 10.0)][0]);
    assert !Inside(BoxOf("germany"), [Coord(50.0, 4.05)][0]);
  }

  // ---------------------------------------------------------------------------------------
  // `PostMatrix` (lines 45-118).

  /** A value of the decoded request body, as far as the handler inspects it. */
  datatype JsonValue = JsonString(s: string) | JsonNumber(n: real) | JsonOther

  const RequiredParams: seq<string> := ["matrix", "speed_profile", "country"]

  /** The parameter loop as written: every round overwrites `ok`, so it ends up saying only
      whether the last name is present. */
  method ParamsPresentAsWritten(blob: map<string, JsonValue>) returns (ok: bool)
    ensures ok <==> "country" in blob
  {
    ok := false;
    for i := 0 to |RequiredParams|
      invariant i > 0 ==> (ok <==> RequiredParams[i - 1] in blob)
    {
      ok := RequiredParams[i] in blob;
    }
  }

  /** The check the loop's comment describes: every required parameter is present. */
  method ParamsPresent(blob: map<string, JsonValue>) returns (ok: bool)
    ensures ok <==> forall p :: p in RequiredParams ==> p in blob
  {
    ok := true;
    for i := 0 to |RequiredParams|
      invariant ok <==> forall j :: 0 <= j < i ==> RequiredParams[j] in blob
    {
      ok := ok && RequiredParams[i] in blob;
    }
  }

  /** A body holding only a country passes the loop as written although the matrix and the
      speed profile are missing; the intended check rejects it. */
  method MissingMatrixAccepted() returns (asWritten: bool, intended: bool)
    ensures asWritten && !intended
  {
    var blob := map["country" := JsonString("finland")];
    asWritten := ParamsPresentAsWritten(blob);
    intended := ParamsPresent(blob);
    assert "matrix" in RequiredParams && "matrix" !in blob;
  }

  /** `int(sp)` of a Go `float64`: truncation toward zero. */
  function TruncateToInt(x: real): (i: int)
    ensures x >= 0.0 ==> i as real <= x < i as real + 1.0
    ensures x < 0.0 ==> i as real - 1.0 < x <= i as real
  {
    if x >= 0.0 then x.Floor else -((-x).Floor)
  }

  /** The text the handler formats with `%f` and `%v`, which the model takes as given:
      a float, a country's box, and the listing of the allowed countries in the order the
      configuration map yields them. */
  datatype Formatter = Formatter(float: real -> string, box: BoundingBox -> string, countries: string)

  const MissingParamsMessage := "Missing matrix data or speed profile or country. You sent: "

  function SpeedMessage(speedProfile: int): string
  {
    "speed profile '" + IntToDecimal(speedProfile) + "' makes no sense, must be one of [40 60 80 100 120]"
  }

  function OutsideMessage(fmt: Formatter, c: Coord, index: nat, country: string): string
  {
    "Coordinate (lat: " + fmt.float(c.lat) + ", long: " + fmt.float(c.lon) + ") at matrix index "
      + IntToDecimal(index) + " is outside the limits for country \"" + country + "\" which is "
      + fmt.box(BoxOf(country)) + "i. Make sure you use [[LAT, LONG]...]."
  }

  /** The validated request. */
  datatype Request = Request(matrix: seq<Coord>, country: string, speedProfile: int)

  /** The speed profile the body gives: `(int(sp), true)` for a number, `(0, false)` for
      anything else, a missing parameter included. */
  function SpeedParam(blob: map<string, JsonValue>): (int, bool)
  {
    if "speed_profile" in blob && blob["speed_profile"].JsonNumber? then (TruncateToInt(blob["speed_profile"].n), true)
    else (0, false)
  }

  /** A parameter that the handler asserts to be a string: one that is missing or of another
      type makes the assertion panic. */
  predicate IsString(blob: map<string, JsonValue>, name: string)
  {
    name in blob && blob[name].JsonString?
  }

  /** The checks of `PostMatrix`, in their order: the parameter loop as written (400), a matrix
      or country that is not a string (a failed type assertion), then the speed profile, the
      country, the matrix syntax and the bounding box (all 422). */
  function ValidateSpec(blob: map<string, JsonValue>, body: string, allowed: set<string>, fmt: Formatter,
                        unmarshal: string -> Result<seq<Coord>, string>): Result<Request, Outcome>
  {
    if "country" !in blob then Failure(Aborted(400, MissingParamsMessage + body))
    else if !IsString(blob, "matrix") || !IsString(blob, "country") then Failure(Crashed)
    else
      var data, country := blob["matrix"].s, blob["country"].s;
      var (speedProfile, isNumber) := SpeedParam(blob);
      if !isNumber || speedProfile !in AllowedSpeeds then Failure(Aborted(422, SpeedMessage(speedProfile)))
      else if country !in allowed then Failure(Aborted(422, "country " + country + " not allowed, must be one of: " + fmt.countries))
      else
        match ViaProcess.ParseJsonMatrix(unmarshal, data)
        case Failure(e) => Failure(Aborted(422, e))
        case Success(matrix) =>
          match FirstOutside(BoxOf(country), matrix, 0)
          case Some(i) => Failure(Aborted(422, OutsideMessage(fmt, matrix[i], i, country)))
          case None => Success(Request(matrix, country, speedProfile))
  }

  /** A request passes validation only with a matrix and a country given as strings, an
      allowed speed profile, an allowed country and a matrix that decodes and lies in the
      country's box. Every rejection is a 400, a 422 or a panic, and the 400 is given exactly
      when the country is missing. */
  lemma ValidatedRequest(blob: map<string, JsonValue>, body: string, allowed: set<string>, fmt: Formatter,
                         unmarshal: string -> Result<seq<Coord>, string>)
    ensures var v := ValidateSpec(blob, body, allowed, fmt, unmarshal);
      && (v.Success? ==>
           && IsString(blob, "matrix")
           && blob["country"] == JsonString(v.value.country)
           && "speed_profile" in blob && blob["speed_profile"].JsonNumber?
           && v.value.speedProfile == TruncateToInt(blob["speed_profile"].n)
           && v.value.speedProfile in AllowedSpeeds
           && v.value.country in allowed
           && unmarshal(blob["matrix"].s) == Success(v.value.matrix)
           && Sane(v.value.matrix, v.value.country))
      && (v.Failure? ==> v.error.Crashed? || (v.error.Aborted? && v.error.status in {400, 422}))
      && (v == Failure(Aborted(400, MissingParamsMessage + body)) <==> "country" !in blob)
  {
    var v := ValidateSpec(blob, body, allowed, fmt, unmarshal);
    if v.Success? {
      FirstOutsideNoneSane(blob["country"].s, v.value.matrix);
    }
  }

  lemma FirstOutsideNoneSane(country: string, matrix: seq<Coord>)
    requires FirstOutside(BoxOf(country), matrix, 0).None?
    ensures Sane(matrix, country)
  {
  }

  /** The validation the parameter loop's comment describes: any missing parameter is a 400,
      and a request that has all three is validated as before. */
  function IntendedValidateSpec(blob: map<string, JsonValue>, body: string, allowed: set<string>, fmt: Formatter,
                                unmarshal: string -> Result<seq<Coord>, string>): (v: Result<Request, Outcome>)
    ensures v == Failure(Aborted(400, MissingParamsMessage + body)) <==> exists p :: p in RequiredParams && p !in blob
    ensures v.Failure? && v.error.Crashed? ==> !IsString(blob, "matrix") || !IsString(blob, "country")
  {
    if exists p :: p in RequiredParams && p !in blob then Failure(Aborted(400, MissingParamsMessage + body))
    else ValidateSpec(blob, body, allowed, fmt, unmarshal)
  }

  /** The two agree on every request that has all three parameters or lacks the country; on the
      others, the one as written panics or complains about the speed profile instead. */
  lemma MissingParamsDisagreement(blob: map<string, JsonValue>, body: string, allowed: set<string>, fmt: Formatter,
                                  unmarshal: string -> Result<seq<Coord>, string>)
    ensures (forall p :: p in RequiredParams ==> p in blob) || "country" !in blob ==>
      IntendedValidateSpec(blob, body, allowed, fmt, unmarshal) == ValidateSpec(blob, body, allowed, fmt, unmarshal)
    ensures "country" in blob && "matrix" !in blob ==> ValidateSpec(blob, body, allowed, fmt, unmarshal) == Failure(Crashed)
    ensures IsString(blob, "matrix") && IsString(blob, "country") && "speed_profile" !in blob ==>
      ValidateSpec(blob, body, allowed, fmt, unmarshal) == Failure(Aborted(422, SpeedMessage(0)))
  {
    if "country" !in blob {
      assert "country" in RequiredParams;
    }
  }

  /** `PostMatrix`. A rejected request leaves the store as it was; an accepted one creates the
      computation and redirects to it, and the computation is launched only for a new record,
      not for a proxy. */
  method PostMatrix(server: SppServer.Server, blob: map<string, JsonValue>, body: string, allowed: set<string>,
                    fmt: Formatter, unmarshal: string -> Result<seq<Coord>, string>, stamp: int)
    returns (outcome: Outcome, launched: bool)
    requires server.client.Valid()
    modifies server.client
    ensures server.client.Valid()
    ensures match ValidateSpec(blob, body, allowed, fmt, unmarshal)
      case Failure(rejection) =>
        outcome == rejection && !launched && server.client.State() == old(server.client.State())
      case Success(req) =>
        var created := JobSpec.CreateSpec(server.env, old(server.client.State()), req.matrix, req.country,
                                          req.speedProfile, stamp, SppServer.Expiry);
        && server.client.State() == created.state
        && outcome == Redirected(201, "/spp/" + created.key)
        && launched == !created.proxy
  {
    var ok := ParamsPresentAsWritten(blob);
    if !ok {
      return Aborted(400, MissingParamsMessage + body), false;
    }
    if !IsString(blob, "matrix") || !IsString(blob, "country") {
      return Crashed, false;
    }
    var data := blob["matrix"].s;
    var country := blob["country"].s;
    var (speedProfile, isNumber) := SpeedParam(blob);
    var allowedSpeed := Contains(speedProfile, AllowedSpeeds);
    if !isNumber || !allowedSpeed {
      return Aborted(422, SpeedMessage(speedProfile)), false;
    }
    if country !in allowed {
      return Aborted(422, "country " + country + " not allowed, must be one of: " + fmt.countries), false;
    }
    var mat := ViaProcess.ParseJsonMatrix(unmarshal, data);
    if mat.Failure? {
      return Aborted(422, mat.error), false;
    }
    var firstOutside := CheckCoordinateSanity(mat.value, country);
    if firstOutside.Some? {
      return Aborted(422, OutsideMessage(fmt, mat.value[firstOutside.value], firstOutside.value, country)), false;
    }
    AllowedSpeedsFit(speedProfile);
    var hash, computed := server.CreateComputation(mat.value, country, speedProfile, stamp);
    launched := !computed;
    outcome := Redirected(201, "/spp/" + hash);
  }

  // ---------------------------------------------------------------------------------------
  // `GetMatrix` and `GetMatrixResult` (lines 120-172).

  const CompleteProgress := "complete"
  const ExpiredMessage := "Result expired. POST again."
  const NotReadyMessage := "Computation is not ready yet."

  /** What `GetMatrix` answers for a store. */
  function StatusSpec(s: StoreState, resource: string): Outcome
  {
    match JobSpec.ProgressSpec(s, resource)
    case Failure(e) => Aborted(500, e)
    case Success(progress) =>
      if progress == CompleteProgress then Redirected(303, "/spp/" + resource + "/result")
      else Replied("{ \"progress\": \"" + progress + "\" }")
  }

  method GetMatrix(server: SppServer.Server, resource: string) returns (outcome: Outcome)
    ensures outcome == StatusSpec(server.client.State(), resource)
  {
    var progress := server.GetComputationProgress(resource);
    if progress.Failure? {
      return Aborted(500, progress.error);
    }
    if progress.value == CompleteProgress {
      outcome := Redirected(303, "/spp/" + resource + "/result");
    } else {
      outcome := Replied("{ \"progress\": \"" + progress.value + "\" }");
    }
  }

  /** The record a key's result is read from: the one its `see` field names, or itself. */
  function ResultHolder(s: StoreState, resource: string): string
    requires resource in s.hashes
  {
    if JobSpec.SeeField in s.hashes[resource] then s.hashes[resource][JobSpec.SeeField] else resource
  }

  /** What `GetMatrixResult` answers for a store. */
  function ResultSpec(s: StoreState, resource: string): Outcome
  {
    if resource !in s.hashes then Aborted(500, ExpiredMessage)
    else if JobSpec.ProgressSpec(s, resource) != Success(CompleteProgress) then Aborted(403, NotReadyMessage)
    else
      var holder := ResultHolder(s, resource);
      if holder in s.hashes && JobSpec.ResultField in s.hashes[holder] then
        Replied("{ \"Matrix\": " + s.hashes[holder][JobSpec.ResultField] + " }")
      else Aborted(500, "Redis error: " + KeyMissing)
  }

  method GetMatrixResult(server: SppServer.Server, resource: string) returns (outcome: Outcome)
    ensures outcome == ResultSpec(server.client.State(), resource)
  {
    var c := server.client;
    var ex := c.Exists(resource);
    if !ex {
      return Aborted(500, ExpiredMessage);
    }
    var progress := server.GetComputationProgress(resource);
    if progress != Success(CompleteProgress) {
      return Aborted(403, NotReadyMessage);
    }
    var holder := resource;
    var proxy := c.Hexists(resource, JobSpec.SeeField);
    if proxy {
      var pointer := c.Hget(resource, JobSpec.SeeField);
      holder := OrEmpty(pointer);
    }
    var data := c.Hget(holder, JobSpec.ResultField);
    if data.Failure? {
      return Aborted(500, "Redis error: " + data.error);
    }
    outcome := Replied("{ \"Matrix\": " + data.value + " }");
  }

  /** A matrix is served only from a record whose progress reads "complete": the key's own,
      or that of the one record its `see` field names. */
  lemma ServedOnlyWhenComplete(s: StoreState, resource: string)
    requires ResultSpec(s, resource).Replied?
    ensures resource in s.hashes
    ensures var holder := ResultHolder(s, resource);
      && JobSpec.FieldOr(s.hashes, holder, JobSpec.ProgressField) == CompleteProgress
      && ResultSpec(s, resource).body == "{ \"Matrix\": " + JobSpec.FieldOr(s.hashes, holder, JobSpec.ResultField) + " }"
  {
  }

  /** The two handlers agree: `GetMatrix` redirects to the result exactly when
      `GetMatrixResult` gets past its expiry and readiness checks. */
  lemma RedirectIffReady(s: StoreState, resource: string)
    ensures StatusSpec(s, resource).Redirected? <==>
      ResultSpec(s, resource) != Aborted(500, ExpiredMessage) && ResultSpec(s, resource) != Aborted(403, NotReadyMessage)
  {
    if resource in s.hashes && JobSpec.ProgressSpec(s, resource) == Success(CompleteProgress) {
      var holder := ResultHolder(s, resource);
      if !(holder in s.hashes && JobSpec.ResultField in s.hashes[holder]) {
        assert ResultSpec(s, resource).message[..13] == "Redis error: ";
      }
    }
  }

  // ---------------------------------------------------------------------------------------
  // `PostResolve` (lines 340-369).

  /** The main package's `ResolveLocation` as a `(location, error)` result. */
  function ResolveOne(db: GeoDB, loc: Location): Result<Location, string>
  {
    var r := ViaAddress.ResolveLocation(db, loc);
    if r.err.Some? then Failure(r.err.value) else Success(r.location)
  }

  function ResolveOf(db: GeoDB): Location -> Result<Location, string>
  {
    loc => ResolveOne(db, loc)
  }

  /** What `PostResolve` answers: a body that does not decode is a 400, the first location that
      cannot be resolved a 422, and otherwise the encoding of the resolved locations. */
  function ResolveSpec(db: GeoDB, parsed: Result<seq<Location>, string>, marshal: seq<Location> -> string): Outcome
  {
    match parsed
    case Failure(e) => Aborted(400, e)
    case Success(locations) =>
      match GeoPath.Traverse(ResolveOf(db), locations)
      case Failure(e) => Aborted(422, e)
      case Success(resolved) => Replied(marshal(resolved))
  }

  method PostResolve(db: GeoDB, parsed: Result<seq<Location>, string>, marshal: seq<Location> -> string)
    returns (outcome: Outcome)
    ensures outcome == ResolveSpec(db, parsed, marshal)
  {
    if parsed.Failure? {
      return Aborted(400, parsed.error);
    }
    var locations := parsed.value;
    var resolvedLocations: seq<Location> := [];
    for i := 0 to |locations|
      invariant GeoPath.Traverse(ResolveOf(db), locations[..i]) == Success(resolvedLocations)
    {
      assert locations[..i + 1][..i] == locations[..i];
      var newLoc := ViaAddress.ResolveLocation(db, locations[i]);
      if newLoc.err.Some? {
        GeoPath.TraversePrefixFailure(ResolveOf(db), locations, i + 1);
        return Aborted(422, newLoc.err.value);
      }
      resolvedLocations := resolvedLocations + [newLoc.location];
    }
    assert locations[..|locations|] == locations;
    outcome := Replied(marshal(resolvedLocations));
  }

  /** A successful answer encodes one resolved location per input location, in input order; a
      422 carries the error of the first location that could not be resolved. */
  lemma ResolveOutcome(db: GeoDB, locations: seq<Location>, marshal: seq<Location> -> string)
    ensures ResolveSpec(db, Success(locations), marshal).Replied? <==>
      forall i :: 0 <= i < |locations| ==> ViaAddress.ResolveLocation(db, locations[i]).err.None?
    ensures ResolveSpec(db, Success(locations), marshal).Replied? ==>
      exists resolved: seq<Location> ::
        && |resolved| == |locations|
        && (forall i :: 0 <= i < |locations| ==> resolved[i] == ViaAddress.ResolveLocation(db, locations[i]).location)
        && ResolveSpec(db, Success(locations), marshal) == Replied(marshal(resolved))
    ensures ResolveSpec(db, Success(locations), marshal).Aborted? ==>
      exists i :: (0 <= i < |locations|
        && ViaAddress.ResolveLocation(db, locations[i]).err == Some(ResolveSpec(db, Success(locations), marshal).message)
        && forall j :: 0 <= j < i ==> ViaAddress.ResolveLocation(db, locations[j]).err.None?)
  {
    var f := ResolveOf(db);
    GeoPath.TraverseSuccess(f, locations);
    assert forall i :: 0 <= i < |locations| ==> f(locations[i]) == ResolveOne(db, locations[i]);
    var t := GeoPath.Traverse(f, locations);
    if t.Failure? {
      GeoPath.TraverseFirstFailure(f, locations);
    } else {
      assert |t.value| == |locations|;
    }
  }
}
