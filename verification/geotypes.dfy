/** The record types shared by the geo package (geo/types.go, geotypes/types.go) and the
    database abstraction `GeoDB`, whose implementations are SQL-backed and given here as oracles. */
module GeoTypes {
  import opened Wrappers

  /** A `Coord` slice as the core builds and reads it: `[latitude, longitude]`. */
  datatype Coord = Coord(lat: real, lon: real)

  datatype Coordinate = Coordinate(latitude: real, longitude: real, system: string)

  datatype Address = Address(
    additionalInfo: string,
    apartmentLetter: string,
    apartmentNumber: int,
    city: string,
    confidence: real,
    resolution: int,
    country: string,
    houseNumber: int,
    postalCode: string,
    region: string,
    street: string)

  datatype Location = Location(address: Address, coordinate: Coordinate)

  /** A node of the road graph with its snapped coordinate. */
  datatype CHNode = CHNode(id: int, coord: Coord)

  datatype Path = Path(length: int, nodes: seq<int>)

  datatype Edge = Edge(source: Location, target: Location)

  datatype NodeEdge = NodeEdge(source: int, target: int)

  datatype PathsInput = PathsInput(speedProfile: int, edges: seq<Edge>)

  datatype CoordinatePath = CoordinatePath(distance: int, time: int, coords: seq<Coord>, sameRoad: bool)

  /** Go's zero values of the records above. */
  const ZeroAddress := Address("", "", 0, "", 0.0, 0, "", 0, "", "", "")
  const ZeroLocation := Location(ZeroAddress, Coordinate(0.0, 0.0, ""))
  const ZeroNode := CHNode(0, Coord(0.0, 0.0))

  /** The outcome of a `select sum(…)` row scan: the sum already truncated to an integer,
      no row, or another database error. */
  datatype SumQuery = Sum(total: int) | NoRows | SqlError(message: string)

  /** The database abstraction layer: every query may fail with an error message. */
  datatype GeoDB = GeoDB(
    /** The nearest road node to a coordinate in a country (`CorrectPoint`). */
    closestPoint: (Coord, string) -> Result<CHNode, string>,
    /** The coordinates of a node list in a country (`GetCoordinates`). */
    coordinates: (seq<int>, string) -> Result<seq<Coord>, string>,
    /** The geo package's fuzzy address search (`GetFuzzyAddress` in geo/address.go): the
        country's search function, filtered by city, at most `count` rows. */
    fuzzyAddress: (Address, int) -> Result<seq<Location>, string>,
    /** The main package's older fuzzy address search (`GetFuzzyAddress` in address.go):
        a different query, which ignores the requested count. */
    mainFuzzyAddress: Address -> Result<seq<Location>, string>,
    /** Runs a summing SQL query. */
    sumQuery: string -> SumQuery,
    status: Option<string>)

  /** A location without coordinates: both latitude and longitude are exactly zero, so the
      point the snapping queries would take is the origin. */
  function IsMissingCoordinate(loc: Location): (missing: bool)
    ensures missing <==> CoordOf(loc) == Coord(0.0, 0.0)
  {
    loc.coordinate.latitude == 0.0 && loc.coordinate.longitude == 0.0
  }

  /** The coordinate of a location as the `Coord{lat, long}` the snapping queries take. */
  function CoordOf(loc: Location): (c: Coord)
    ensures c.lat == loc.coordinate.latitude && c.lon == loc.coordinate.longitude
  {
    Coord(loc.coordinate.latitude, loc.coordinate.longitude)
  }
}
