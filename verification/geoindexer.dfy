/** The geoindexer of geo/geoindex.go: every coordinate is mapped to its nearest road-graph
    node, the coordinate list being split into chunks that separate workers index. The
    workers are run one after the other here, in chunk order. */
module Geoindexer {
  import opened Wrappers
  import opened GeoTypes
  import Text

  /** Outcome of the nearest-node query for one coordinate. */
  datatype NodeQuery = Node(id: int) | NoRows | QueryError(message: string)

  /** The nearest-node query of a country's node table. */
  type NodeLookup = (string, Coord) -> NodeQuery

  /** The nodes a worker finds for its coordinates, in order: a coordinate without a row is
      skipped, and the first query error ends the work. */
  function Found(lookup: NodeLookup, country: string, coords: seq<Coord>): (r: Result<seq<int>, string>)
    ensures r.Success? ==> |r.value| <= |coords|
    decreases |coords|
  {
    if coords == [] then Success([])
    else
      match Found(lookup, country, coords[..|coords| - 1])
      case Failure(e) => Failure(e)
      case Success(ns) =>
        match lookup(country, coords[|coords| - 1])
        case Node(id) => Success(ns + [id])
        case NoRows => Success(ns)
        case QueryError(e) => Failure(e)
  }

  /** The index of the first coordinate whose query fails, if any. */
  predicate FirstError(lookup: NodeLookup, country: string, coords: seq<Coord>, k: int)
  {
    0 <= k < |coords| && lookup(country, coords[k]).QueryError? &&
    forall i :: 0 <= i < k ==> !lookup(country, coords[i]).QueryError?
  }

  /** Go's `copy(dst, src)`: the first `min(len(dst), len(src))` slots take `src`'s values. */
  function Copied(dst: seq<int>, src: seq<int>): (r: seq<int>)
    ensures |r| == |dst|
    ensures forall i :: 0 <= i < |r| ==> r[i] == if i < |src| then src[i] else dst[i]
  {
    if |src| >= |dst| then src[..|dst|] else src + dst[|src|..]
  }

  function Zeros(n: nat): (z: seq<int>)
    ensures |z| == n && forall i :: 0 <= i < n ==> z[i] == 0
  {
    seq(n, _ => 0)
  }

  /** A failure found on a prefix is the failure of the whole run. */
  lemma {:induction false} FoundPrefixFailure(lookup: NodeLookup, country: string, coords: seq<Coord>, k: nat)
    requires k <= |coords| && Found(lookup, country, coords[..k]).Failure?
    ensures Found(lookup, country, coords) == Found(lookup, country, coords[..k])
    decreases |coords| - k
  {
    if k < |coords| {
      var next := coords[..k + 1];
      assert next[..|next| - 1] == coords[..k];
      FoundPrefixFailure(lookup, country, coords, k + 1);
    } else {
      assert coords[..k] == coords;
    }
  }

  /** The independent reference: the ids of the queries that returned a node, in order. */
  function NodeIds(lookup: NodeLookup, country: string, coords: seq<Coord>): seq<int>
    decreases |coords|
  {
    if coords == [] then []
    else
      NodeIds(lookup, country, coords[..|coords| - 1]) +
      (match lookup(country, coords[|coords| - 1]) case Node(id) => [id] case _ => [])
  }

  /** A successful worker returns exactly the ids of the queries that found a node, in order. */
  lemma {:induction false} FoundIds(lookup: NodeLookup, country: string, coords: seq<Coord>)
    requires Found(lookup, country, coords).Success?
    ensures Found(lookup, country, coords).value == NodeIds(lookup, country, coords)
    decreases |coords|
  {
    if coords != [] {
      FoundIds(lookup, country, coords[..|coords| - 1]);
    }
  }

  /** A worker fails exactly when some query fails. */
  lemma {:induction false} FoundFails(lookup: NodeLookup, country: string, coords: seq<Coord>)
    ensures Found(lookup, country, coords).Failure? <==>
      exists i :: 0 <= i < |coords| && lookup(country, coords[i]).QueryError?
    decreases |coords|
  {
    if coords != [] {
      var init := coords[..|coords| - 1];
      FoundFails(lookup, country, init);
      if Found(lookup, country, init).Failure? {
        var i :| 0 <= i < |init| && lookup(country, init[i]).QueryError?;
        assert coords[i] == init[i];
      } else if !lookup(country, coords[|coords| - 1]).QueryError? {
        forall i | 0 <= i < |coords|
          ensures !lookup(country, coords[i]).QueryError?
        {
          if i < |init| {
            assert coords[i] == init[i];
          }
        }
      }
    }
  }

  /** The error a failing worker returns is the one of its first failing query. */
  lemma {:induction false} FoundFirstError(lookup: NodeLookup, country: string, coords: seq<Coord>, k: int)
    requires FirstError(lookup, country, coords, k)
    ensures Found(lookup, country, coords) == Failure(lookup(country, coords[k]).message)
  {
    var pre := coords[..k];
    forall i | 0 <= i < |pre|
      ensures !lookup(country, pre[i]).QueryError?
    {
      assert pre[i] == coords[i];
    }
    FoundFails(lookup, country, pre);
    var next := coords[..k + 1];
    assert next[..|next| - 1] == pre;
    FoundPrefixFailure(lookup, country, coords, k + 1);
  }
  /** One worker (`Geoindex`): queries each coordinate in turn; on the first query error it
      returns that error and leaves `mapped` untouched, otherwise it copies the nodes found,
      left-aligned, into `mapped`. */
  method Geoindex(lookup: NodeLookup, country: string, coords: seq<Coord>, mapped: array<int>)
    returns (err: Option<string>)
    modifies mapped
    ensures Found(lookup, country, coords).Failure? ==>
      err == Some(Found(lookup, country, coords).error) && mapped[..] == old(mapped[..])
    ensures Found(lookup, country, coords).Success? ==>
      err == None && mapped[..] == Copied(old(mapped[..]), Found(lookup, country, coords).value)
  {
    var coordNodes: seq<int> := [];
    var i := 0;
    while i < |coords|
      invariant 0 <= i <= |coords|
      invariant Found(lookup, country, coords[..i]) == Success(coordNodes)
    {
      assert coords[..i + 1][..i] == coords[..i];
      match lookup(country, coords[i]) {
        case NoRows =>
        case QueryError(e) =>
          FoundPrefixFailure(lookup, country, coords, i + 1);
          return Some(e);
        case Node(node) =>
          coordNodes := coordNodes + [node];
      }
      i := i + 1;
    }
    assert coords[..i] == coords;
    Copy(mapped, coordNodes);
    return None;
  }

  /** Go's `copy(dst, src)` on a slice. */
  method Copy(dst: array<int>, src: seq<int>)
    modifies dst
    ensures dst[..] == Copied(old(dst[..]), src)
  {
    ghost var before := dst[..];
    var n := if |src| < dst.Length then |src| else dst.Length;
    var k := 0;
    while k < n
      invariant 0 <= k <= n
      invariant forall i :: 0 <= i < dst.Length ==> dst[i] == if i < k then src[i] else before[i]
    {
      dst[k] := src[k];
      k := k + 1;
    }
    assert forall i :: 0 <= i < dst.Length ==> dst[..][i] == Copied(before, src)[i];
  }

  /** The slice bounds of the chunks: `connections` chunks of `n / connections` coordinates
      from offset 0, then one chunk for the remainder when there is one. */
  function Plan(n: nat, connections: nat): (bounds: seq<(nat, nat)>)
    requires connections >= 1
  {
    var size := n / connections;
    seq(connections, j requires 0 <= j < connections => (j * size, (j + 1) * size)) +
    (if n % connections > 0 then [(connections * size, n)] else [])
  }

  /** The coordinates each worker receives. */
  function Chunks(coords: seq<Coord>, connections: nat): (chunks: seq<seq<Coord>>)
    requires connections >= 1
    ensures |chunks| == |Plan(|coords|, connections)|
  {
    var bounds := Plan(|coords|, connections);
    PlanBounds(|coords|, connections);
    seq(|bounds|, j requires 0 <= j < |bounds| => coords[bounds[j].0..bounds[j].1])
  }

  function Concat<T>(parts: seq<seq<T>>): seq<T>
    decreases |parts|
  {
    if parts == [] then [] else Concat(parts[..|parts| - 1]) + parts[|parts| - 1]
  }

  /** The contents of a worker's destination slice: the nodes it found, then zeros. */
  function ChunkResult(lookup: NodeLookup, country: string, chunk: seq<Coord>): (r: Result<seq<int>, string>)
    ensures r.Success? ==> |r.value| == |chunk|
  {
    match Found(lookup, country, chunk)
    case Failure(e) => Failure(e)
    case Success(ns) => Success(Copied(Zeros(|chunk|), ns))
  }

  /** The result of indexing all chunks: the chunk results concatenated in chunk order when
      every worker succeeds, and otherwise the error of the first failing chunk. */
  function Recombined(lookup: NodeLookup, country: string, chunks: seq<seq<Coord>>): (r: Result<seq<int>, string>)
    decreases |chunks|
  {
    if chunks == [] then Success([])
    else
      match Recombined(lookup, country, chunks[..|chunks| - 1])
      case Failure(e) => Failure(e)
      case Success(prefix) =>
        match ChunkResult(lookup, country, chunks[|chunks| - 1])
        case Failure(e) => Failure(e)
        case Success(part) => Success(prefix + part)
  }

  lemma PlanBounds(n: nat, connections: nat)
    requires connections >= 1
    ensures forall j :: 0 <= j < |Plan(n, connections)| ==>
      Plan(n, connections)[j].0 <= Plan(n, connections)[j].1 <= n
  {
    var size := n / connections;
    var bounds := Plan(n, connections);
    forall j | 0 <= j < |bounds|
      ensures bounds[j].0 <= bounds[j].1 <= n
    {
      if j < connections {
        MulMonotone(j + 1, connections, size);
      } else {
        MulMonotone(connections, connections, size);
      }
    }
  }

  lemma MulMonotone(a: nat, b: nat, c: nat)
    requires a <= b
    ensures a * c <= b * c
  {
  }
  /** The chunks are contiguous: the first starts at 0, each starts where the previous one
      ends, and the last ends at `n`; there are `connections` of them plus one for a remainder. */
  lemma PlanContiguous(n: nat, connections: nat)
    requires connections >= 1
    ensures |Plan(n, connections)| == connections + (if n % connections > 0 then 1 else 0)
    ensures Plan(n, connections)[0].0 == 0
    ensures forall j :: 0 <= j < |Plan(n, connections)| - 1 ==>
      Plan(n, connections)[j].1 == Plan(n, connections)[j + 1].0
    ensures Plan(n, connections)[|Plan(n, connections)| - 1].1 == n
  {
    var size := n / connections;
    var bounds := Plan(n, connections);
    assert connections * size + n % connections == n;
    if n % connections == 0 {
      assert bounds[connections - 1].1 == connections * size;
    }
  }

  function PlanEnd(bounds: seq<(nat, nat)>, m: nat): nat
    requires m <= |bounds|
  {
    if m == 0 then 0 else bounds[m - 1].1
  }

  lemma {:induction false} ChunksPrefix(coords: seq<Coord>, connections: nat, m: nat)
    requires connections >= 1 && m <= |Chunks(coords, connections)|
    ensures PlanEnd(Plan(|coords|, connections), m) <= |coords|
    ensures Concat(Chunks(coords, connections)[..m]) ==
      coords[..PlanEnd(Plan(|coords|, connections), m)]
    decreases m
  {
    var chunks := Chunks(coords, connections);
    var bounds := Plan(|coords|, connections);
    PlanBounds(|coords|, connections);
    PlanContiguous(|coords|, connections);
    if m > 0 {
      ChunksPrefix(coords, connections, m - 1);
      assert chunks[..m][..m - 1] == chunks[..m - 1];
      assert bounds[m - 1].0 == PlanEnd(bounds, m - 1);
      var lo, hi := bounds[m - 1].0, bounds[m - 1].1;
      assert coords[..lo] + coords[lo..hi] == coords[..hi];
    }
  }

  /** The chunks cover the coordinates exactly once and in order. */
  lemma ChunksCover(coords: seq<Coord>, connections: nat)
    requires connections >= 1
    ensures Concat(Chunks(coords, connections)) == coords
  {
    var chunks := Chunks(coords, connections);
    PlanContiguous(|coords|, connections);
    ChunksPrefix(coords, connections, |chunks|);
    assert chunks[..|chunks|] == chunks;
  }

  /** A successful recombination has one entry per coordinate of the chunks. */
  lemma {:induction false} RecombinedLength(lookup: NodeLookup, country: string, chunks: seq<seq<Coord>>)
    requires Recombined(lookup, country, chunks).Success?
    ensures |Recombined(lookup, country, chunks).value| == |Concat(chunks)|
    decreases |chunks|
  {
    if chunks != [] {
      RecombinedLength(lookup, country, chunks[..|chunks| - 1]);
    }
  }

  /** Recombination fails exactly when the query of some coordinate of some chunk fails. */
  lemma {:induction false} RecombinedFails(lookup: NodeLookup, country: string, chunks: seq<seq<Coord>>)
    ensures Recombined(lookup, country, chunks).Failure? <==>
      exists i :: 0 <= i < |Concat(chunks)| && lookup(country, Concat(chunks)[i]).QueryError?
    decreases |chunks|
  {
    if chunks != [] {
      var init, last := chunks[..|chunks| - 1], chunks[|chunks| - 1];
      var all := Concat(chunks);
      assert all == Concat(init) + last;
      RecombinedFails(lookup, country, init);
      FoundFails(lookup, country, last);
      if exists i :: 0 <= i < |all| && lookup(country, all[i]).QueryError? {
        var i :| 0 <= i < |all| && lookup(country, all[i]).QueryError?;
        if i < |Concat(init)| {
          assert all[i] == Concat(init)[i];
        } else {
          assert all[i] == last[i - |Concat(init)|];
        }
      } else {
        forall i | 0 <= i < |Concat(init)|
          ensures !lookup(country, Concat(init)[i]).QueryError?
        {
          assert all[i] == Concat(init)[i];
        }
        forall i | 0 <= i < |last|
          ensures !lookup(country, last[i]).QueryError?
        {
          assert all[|Concat(init)| + i] == last[i];
        }
      }
    }
  }

  predicate AllFound(lookup: NodeLookup, country: string, coords: seq<Coord>)
  {
    forall i :: 0 <= i < |coords| ==> lookup(country, coords[i]).Node?
  }

  /** The nodes of coordinates that all have one, position by position. */
  function Ids(lookup: NodeLookup, country: string, coords: seq<Coord>): (ids: seq<int>)
    requires AllFound(lookup, country, coords)
    ensures |ids| == |coords|
  {
    seq(|coords|, i requires 0 <= i < |coords| => lookup(country, coords[i]).id)
  }

  lemma {:induction false} NodeIdsAllFound(lookup: NodeLookup, country: string, coords: seq<Coord>)
    requires AllFound(lookup, country, coords)
    ensures NodeIds(lookup, country, coords) == Ids(lookup, country, coords)
    decreases |coords|
  {
    if coords != [] {
      var init := coords[..|coords| - 1];
      assert AllFound(lookup, country, init) by {
        forall i | 0 <= i < |init|
          ensures lookup(country, init[i]).Node?
        {
          assert init[i] == coords[i];
        }
      }
      NodeIdsAllFound(lookup, country, init);
    }
  }

  lemma AllFoundSplit(lookup: NodeLookup, country: string, a: seq<Coord>, b: seq<Coord>)
    requires AllFound(lookup, country, a + b)
    ensures AllFound(lookup, country, a) && AllFound(lookup, country, b)
    ensures Ids(lookup, country, a + b) == Ids(lookup, country, a) + Ids(lookup, country, b)
  {
    forall i | 0 <= i < |a|
      ensures lookup(country, a[i]).Node?
    {
      assert (a + b)[i] == a[i];
    }
    forall i | 0 <= i < |b|
      ensures lookup(country, b[i]).Node?
    {
      assert (a + b)[|a| + i] == b[i];
    }
  }

  /** A worker whose every query finds a node fills its whole destination slice with them. */
  lemma ChunkResultAllFound(lookup: NodeLookup, country: string, chunk: seq<Coord>)
    requires AllFound(lookup, country, chunk)
    ensures ChunkResult(lookup, country, chunk) == Success(Ids(lookup, country, chunk))
  {
    FoundFails(lookup, country, chunk);
    FoundIds(lookup, country, chunk);
    NodeIdsAllFound(lookup, country, chunk);
    var ids := Ids(lookup, country, chunk);
    assert Copied(Zeros(|chunk|), ids) == ids;
  }

  /** When every coordinate has a node, the recombined result holds, at each position,
      the node of the coordinate at that position: chunking loses no alignment. */
  lemma {:induction false} RecombinedAligned(lookup: NodeLookup, country: string, chunks: seq<seq<Coord>>)
    requires AllFound(lookup, country, Concat(chunks))
    ensures Recombined(lookup, country, chunks) == Success(Ids(lookup, country, Concat(chunks)))
    decreases |chunks|
  {
    if chunks != [] {
      var init, last := chunks[..|chunks| - 1], chunks[|chunks| - 1];
      AllFoundSplit(lookup, country, Concat(init), last);
      RecombinedAligned(lookup, country, init);
      ChunkResultAllFound(lookup, country, last);
    }
  }

  /** Chunk `j` of the plan as a slice of the coordinates. */
  lemma ChunkAt(coords: seq<Coord>, connections: nat, j: nat)
    requires connections >= 1 && j < |Chunks(coords, connections)|
    ensures Plan(|coords|, connections)[j].0 <= Plan(|coords|, connections)[j].1 <= |coords|
    ensures Chunks(coords, connections)[j] ==
      coords[Plan(|coords|, connections)[j].0..Plan(|coords|, connections)[j].1]
  {
    PlanBounds(|coords|, connections);
  }

  /** The counted loop of the chunk split: `connections` slices of `len / connections`
      coordinates from offset 0, each with a zeroed, freshly allocated destination slice. */
  method EqualChunks(coordinates: seq<Coord>, connections: int)
    returns (src: seq<seq<Coord>>, dst: seq<array<int>>)
    requires connections >= 1
    ensures |src| == |dst| == connections && src == Chunks(coordinates, connections)[..connections]
    ensures forall m :: 0 <= m < |dst| ==> fresh(dst[m]) && dst[m][..] == Zeros(|src[m]|)
    ensures forall m, m' :: 0 <= m < m' < |dst| ==> dst[m] != dst[m']
  {
    ghost var chunks := Chunks(coordinates, connections);
    ghost var bounds := Plan(|coordinates|, connections);
    var chunkSize := |coordinates| / connections;
    src, dst := [], [];
    var offset := 0;
    var i := 0;
    while i < connections
      invariant 0 <= i <= connections && offset == i * chunkSize
      invariant |src| == |dst| == i && src == chunks[..i]
      invariant forall m :: 0 <= m < i ==> fresh(dst[m]) && dst[m][..] == Zeros(|src[m]|)
      invariant forall m, m' :: 0 <= m < m' < i ==> dst[m] != dst[m']
    {
      assert (i + 1) * chunkSize == offset + chunkSize;
      ChunkAt(coordinates, connections, i);
      assert bounds[i] == (offset, offset + chunkSize);
      src := src + [coordinates[offset..offset + chunkSize]];
      var a := new int[chunkSize](_ => 0);
      dst := dst + [a];
      offset := offset + chunkSize;
      i := i + 1;
    }
  }

  /** The chunk split of `RunGeoindexer`: the equal chunks, then one more for the remainder
      when there is one. */
  method SplitChunks(coordinates: seq<Coord>, connections: int)
    returns (src: seq<seq<Coord>>, dst: seq<array<int>>)
    requires connections >= 1
    ensures src == Chunks(coordinates, connections) && |dst| == |src|
    ensures forall m :: 0 <= m < |dst| ==> fresh(dst[m]) && dst[m][..] == Zeros(|src[m]|)
    ensures forall m, m' :: 0 <= m < m' < |dst| ==> dst[m] != dst[m']
  {
    src, dst := EqualChunks(coordinates, connections);
    ghost var chunks := Chunks(coordinates, connections);
    var offset := connections * (|coordinates| / connections);
    var remnants := |coordinates| % connections;
    if remnants > 0 {
      assert offset + remnants == |coordinates|;
      ChunkAt(coordinates, connections, connections);
      src := src + [coordinates[offset..offset + remnants]];
      var a := new int[remnants](_ => 0);
      dst := dst + [a];
    }
    assert src == chunks;
  }

  /** The workers run one after the other in chunk order; the first error is returned,
      otherwise each destination slice holds its chunk's result. */
  method RunJobs(lookup: NodeLookup, country: string, src: seq<seq<Coord>>, dst: seq<array<int>>)
    returns (err: Option<string>, ghost done: seq<seq<int>>)
    requires |dst| == |src|
    requires forall m :: 0 <= m < |dst| ==> dst[m][..] == Zeros(|src[m]|)
    requires forall m, m' :: 0 <= m < m' < |dst| ==> dst[m] != dst[m']
    modifies set m | 0 <= m < |dst| :: dst[m]
    ensures err.Some? ==> Recombined(lookup, country, src) == Failure(err.value)
    ensures err.None? ==> Recombined(lookup, country, src) == Success(Concat(done))
    ensures err.None? ==> |done| == |dst| && forall m :: 0 <= m < |dst| ==> dst[m][..] == done[m]
  {
    done := [];
    var j := 0;
    while j < |src|
      invariant 0 <= j <= |src| && |done| == j
      invariant Recombined(lookup, country, src[..j]) == Success(Concat(done))
      invariant forall m :: 0 <= m < j ==> dst[m][..] == done[m]
      invariant forall m :: j <= m < |src| ==> dst[m][..] == Zeros(|src[m]|)
    {
      err := Geoindex(lookup, country, src[j], dst[j]);
      assert src[..j + 1][..j] == src[..j];
      if err.Some? {
        RecombinedPrefixFailure(lookup, country, src, j + 1);
        return;
      }
      done := done + [dst[j][..]];
      assert done[..j] == done[..|done| - 1];
      j := j + 1;
    }
    assert src[..j] == src;
    err := None;
  }

  /** `RunGeoindexer`: rejects an odd number of connections above 1, splits the coordinates
      by `Plan`, runs one worker per chunk on a zeroed destination slice, and returns
      either a worker's error or the destination slices concatenated in chunk order. */
  method RunGeoindexer(lookup: NodeLookup, country: string, coordinates: seq<Coord>, connections: int)
    returns (r: Result<seq<int>, string>)
    requires connections >= 1
    ensures connections > 1 && connections % 2 != 0 ==>
      r == Failure("connections must be even when more than 1, you gave: " + Text.RuneString(connections))
    ensures !(connections > 1 && connections % 2 != 0) ==>
      r == Recombined(lookup, country, Chunks(coordinates, connections))
  {
    if connections > 1 && connections % 2 != 0 {
      return Failure("connections must be even when more than 1, you gave: " + Text.RuneString(connections));
    }
    var src, dst := SplitChunks(coordinates, connections);
    var err, done := RunJobs(lookup, country, src, dst);
    if err.Some? {
      return Failure(err.value);
    }
    var res := Flatten(dst, done);
    return Success(res);
  }

  /** The destination slices appended one after the other. */
  method Flatten(dst: seq<array<int>>, ghost parts: seq<seq<int>>) returns (res: seq<int>)
    requires |parts| == |dst| && forall m :: 0 <= m < |dst| ==> dst[m][..] == parts[m]
    ensures res == Concat(parts)
  {
    res := [];
    var k := 0;
    while k < |dst|
      invariant 0 <= k <= |dst| && res == Concat(parts[..k])
    {
      assert parts[..k + 1][..k] == parts[..k];
      res := res + dst[k][..];
      k := k + 1;
    }
    assert parts[..k] == parts;
  }

  lemma {:induction false} RecombinedPrefixFailure(lookup: NodeLookup, country: string, chunks: seq<seq<Coord>>, k: nat)
    requires k <= |chunks| && Recombined(lookup, country, chunks[..k]).Failure?
    ensures Recombined(lookup, country, chunks) == Recombined(lookup, country, chunks[..k])
    decreases |chunks| - k
  {
    if k < |chunks| {
      var next := chunks[..k + 1];
      assert next[..|next| - 1] == chunks[..k];
      RecombinedPrefixFailure(lookup, country, chunks, k + 1);
    } else {
      assert chunks[..k] == chunks;
    }
  }
  /** What an accepted `RunGeoindexer` call returns, stated on the coordinates themselves:
      it fails exactly when some coordinate's query fails, a success has one entry per
      coordinate, and when every coordinate has a node entry `i` is the node of coordinate `i`. */
  lemma IndexedSpec(lookup: NodeLookup, country: string, coords: seq<Coord>, connections: nat)
    requires connections >= 1
    ensures Recombined(lookup, country, Chunks(coords, connections)).Failure? <==>
      exists i :: 0 <= i < |coords| && lookup(country, coords[i]).QueryError?
    ensures Recombined(lookup, country, Chunks(coords, connections)).Success? ==>
      |Recombined(lookup, country, Chunks(coords, connections)).value| == |coords|
    ensures AllFound(lookup, country, coords) ==>
      Recombined(lookup, country, Chunks(coords, connections)) == Success(Ids(lookup, country, coords))
  {
    var chunks := Chunks(coords, connections);
    ChunksCover(coords, connections);
    RecombinedFails(lookup, country, chunks);
    if Recombined(lookup, country, chunks).Success? {
      RecombinedLength(lookup, country, chunks);
    }
    if AllFound(lookup, country, coords) {
      RecombinedAligned(lookup, country, chunks);
    }
  }
}
