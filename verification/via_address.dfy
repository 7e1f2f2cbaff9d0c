/** address.go: the main package's older location resolver. Where geo/address.go reports a
    failure through the confidence, this one returns the zero location and an error. */
module ViaAddress {
  import opened Wrappers
  import opened Text
  import opened GeoTypes
  import GeoAddress

  /** `ResolveLocation`: every failure returns the zero location with the error. */
  function ResolveLocation(db: GeoDB, location: Location): (r: GeoAddress.Resolved)
    ensures r.err.Some? ==> r.location == ZeroLocation
    ensures IsMissingCoordinate(location) && location.address.street == "" ==>
      r.err == Some("Street empty, cannot search.")
    ensures IsMissingCoordinate(location) && location.address.street != "" ==>
      match db.mainFuzzyAddress(location.address)
      case Failure(e) => r.err == Some(e)
      case Success(locs) =>
        && r.err == None
        && (|locs| == 0 ==> r.location == GeoAddress.WithConfidence(location, 30.0))
        && (|locs| > 0 ==> r.location == locs[0])
    ensures !IsMissingCoordinate(location) && location.address.country == "" ==>
      r.err == Some("Must provide country in Location.Address!")
    ensures !IsMissingCoordinate(location) && location.address.country != "" ==>
      match db.closestPoint(CoordOf(location), location.address.country)
      case Failure(e) => r.err == Some(e)
      case Success(node) =>
        && r.err == None
        && r.location.address == location.address
        && r.location.coordinate.system == location.coordinate.system
        && CoordOf(r.location) == node.coord
  {
    if IsMissingCoordinate(location) then
      if location.address.street != "" then
        match db.mainFuzzyAddress(location.address)
        case Failure(e) => GeoAddress.Resolved(ZeroLocation, Some(e))
        case Success(locs) =>
          if |locs| == 0 then GeoAddress.Resolved(GeoAddress.WithConfidence(location, 30.0), None)
          else GeoAddress.Resolved(location.(coordinate := locs[0].coordinate, address := locs[0].address), None)
      else GeoAddress.Resolved(ZeroLocation, Some("Street empty, cannot search."))
    else if location.address.country == "" then
      GeoAddress.Resolved(ZeroLocation, Some("Must provide country in Location.Address!"))
    else
      match db.closestPoint(CoordOf(location), location.address.country)
      case Failure(e) => GeoAddress.Resolved(ZeroLocation, Some(e))
      case Success(node) =>
        GeoAddress.Resolved(location.(coordinate := location.coordinate.(latitude := node.coord.lat, longitude := node.coord.lon)), None)
  }

  /** The two address searches look alike to the resolvers: the same error, no match in
      either, or the same best match. */
  predicate SameBestMatch(main: Result<seq<Location>, string>, geo: Result<seq<Location>, string>)
  {
    match (main, geo)
    case (Failure(e1), Failure(e2)) => e1 == e2
    case (Success(l1), Success(l2)) => |l1| == |l2| == 0 || (|l1| > 0 && |l2| > 0 && l1[0] == l2[0])
    case _ => false
  }

  /** The two resolvers agree wherever the older one succeeds, as long as the newer one's
      country check lets the lookup through and, for a location geocoded by its street, the
      two packages' searches find the same best match; where the older one fails, the newer
      one reports an error too, except for a missing street, which it only marks with
      confidence 30. Snapping a coordinate needs no such hypothesis: both use the same query. */
  lemma VariantsAgree(db: GeoDB, location: Location)
    requires !IsMissingCoordinate(location) ||
      ToLower(location.address.country) == "finland" || ToLower(location.address.country) == "germany"
    ensures IsMissingCoordinate(location) && location.address.street != "" ==>
      SameBestMatch(db.mainFuzzyAddress(location.address), db.fuzzyAddress(location.address, 1)) ==>
      (ResolveLocation(db, location).err == None ==>
         GeoAddress.ResolveLocation(db, location) == ResolveLocation(db, location)) &&
      (ResolveLocation(db, location).err.Some? ==> GeoAddress.ResolveLocation(db, location).err.Some?)
    ensures IsMissingCoordinate(location) && location.address.street == "" ==>
      ResolveLocation(db, location).err.Some? &&
      GeoAddress.ResolveLocation(db, location).location.address.confidence == 30.0
    ensures !IsMissingCoordinate(location) ==>
      (ResolveLocation(db, location).err == None ==>
         GeoAddress.ResolveLocation(db, location) == ResolveLocation(db, location)) &&
      (ResolveLocation(db, location).err.Some? ==> GeoAddress.ResolveLocation(db, location).err.Some?)
  {
  }
}
