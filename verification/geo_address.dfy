/** geo/address.go: resolving a location, either by geocoding its address when it has no
    coordinate or by snapping its coordinate to the road graph. The database queries are the
    oracles of `GeoDB`. */
module GeoAddress {
  import opened Wrappers
  import opened Text
  import opened GeoTypes

  /** The per-country fuzzy-search functions of the address database. */
  const CountryFuncs: map<string, string> := map["finland" := "get_appr2", "germany" := "get_appr_germany"]

  /** `GetFuzzyAddress`: countries are matched case-insensitively and only those with a
      search function are queried. */
  function GetFuzzyAddress(db: GeoDB, address: Address, count: int): (r: Result<seq<Location>, string>)
    ensures ToLower(address.country) != "finland" && ToLower(address.country) != "germany" ==>
      r == Failure("Country " + ToLower(address.country) + " not recognized")
    ensures ToLower(address.country) == "finland" || ToLower(address.country) == "germany" ==>
      r == db.fuzzyAddress(address, count)
  {
    var country := ToLower(address.country);
    if country !in CountryFuncs then Failure("Country " + country + " not recognized")
    else db.fuzzyAddress(address, count)
  }

  /** Both the location and the error are returned. */
  datatype Resolved = Resolved(location: Location, err: Option<string>)

  function WithConfidence(location: Location, confidence: real): Location
  {
    location.(address := location.address.(confidence := confidence))
  }

  /** `ResolveLocation`. Without a coordinate, the best fuzzy match replaces the location's
      coordinate and address, and the confidence says why there is none (20: the lookup
      failed, 30: no street or no match). With a coordinate, only latitude and longitude
      change, to those of the nearest road node. */
  function ResolveLocation(db: GeoDB, location: Location): (r: Resolved)
    ensures IsMissingCoordinate(location) && location.address.street == "" ==>
      r == Resolved(WithConfidence(location, 30.0), None)
    ensures IsMissingCoordinate(location) && location.address.street != "" ==>
      match GetFuzzyAddress(db, location.address, 1)
      case Failure(e) => r == Resolved(WithConfidence(location, 20.0), Some(e))
      case Success(locs) =>
        && r.err == None
        && (|locs| == 0 ==> r.location == WithConfidence(location, 30.0))
        && (|locs| > 0 ==> r.location == locs[0])
    ensures !IsMissingCoordinate(location) && location.address.country == "" ==>
      r == Resolved(location, Some("Must provide country in Location.Address!"))
    ensures !IsMissingCoordinate(location) && location.address.country != "" ==>
      && r.location.address == location.address
      && r.location.coordinate.system == location.coordinate.system
      && match db.closestPoint(CoordOf(location), location.address.country)
         case Failure(e) => r == Resolved(location, Some(e))
         case Success(node) =>
           r.err == None && CoordOf(r.location) == node.coord
  {
    if IsMissingCoordinate(location) then
      if location.address.street != "" then
        match GetFuzzyAddress(db, location.address, 1)
        case Failure(e) => Resolved(WithConfidence(location, 20.0), Some(e))
        case Success(locs) =>
          if |locs| == 0 then Resolved(WithConfidence(location, 30.0), None)
          else Resolved(location.(coordinate := locs[0].coordinate, address := locs[0].address), None)
      else Resolved(WithConfidence(location, 30.0), None)
    else if location.address.country == "" then
      Resolved(location, Some("Must provide country in Location.Address!"))
    else
      match db.closestPoint(CoordOf(location), location.address.country)
      case Failure(e) => Resolved(location, Some(e))
      case Success(node) =>
        Resolved(location.(coordinate := location.coordinate.(latitude := node.coord.lat, longitude := node.coord.lon)), None)
  }

  /** Snapping is stable: a location snapped to a road node whose own nearest node is itself
      resolves to itself again. */
  lemma SnapStable(db: GeoDB, location: Location, node: CHNode)
    requires !IsMissingCoordinate(location) && location.address.country != ""
    requires db.closestPoint(CoordOf(location), location.address.country) == Success(node)
    requires node.coord != Coord(0.0, 0.0)
    requires db.closestPoint(node.coord, location.address.country) == Success(node)
    ensures ResolveLocation(db, ResolveLocation(db, location).location) == ResolveLocation(db, location)
  {
    var once := ResolveLocation(db, location).location;
    assert CoordOf(once) == node.coord;
  }
}
