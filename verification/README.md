# via: computation records, matrix jobs, geoindexing and paths

via is a routing service. Clients POST a distance-matrix request (a list of coordinates, a
country and a speed profile). The service answers with the URL of a computation record kept
in Redis. A background job then snaps every coordinate to the nearest node of the road graph
(the geoindexer, over parallel PostgreSQL connections). It asks the native contraction-hierarchy
engine for the matrix and stores the answer in the record. Clients poll the record's progress
and fetch the result once it reads `complete`. The same service resolves addresses to
coordinates and computes paths between locations.

This project models that core in Dafny:

| module (file) | Go source |
|---|---|
| `JobStore` (job_store.dfy) | the Redis hash commands the core uses: EXISTS, HSET, HGET, HEXISTS, TTL, EXPIRE |
| `JobSpec` (job_spec.dfy) | the record specification shared by geo/matrix.go and spp_server.go: fingerprint keys, new and proxy records, progress, the compute writes |
| `GeoMatrix` (geo_matrix.dfy) | class `Geo` of geo/matrix.go |
| `SppServer` (spp_server.dfy) | class `Server` of spp_server.go |
| `ViaMatrix` (via_matrix.dfy) | class `Via` of matrix.go, which uses random keys and stores the parsed answer |
| `Geoindexer` (geoindexer.dfy) | geo/geoindex.go: one worker per chunk over an array, the chunk plan, recombination |
| `GeoProcess`, `ViaProcess` | geo/process.go and process.go: engine input JSON, the engine-message repair, matrix parsing |
| `GeoAddress`, `ViaAddress` | geo/address.go and address.go: fuzzy address search and location resolution |
| `PostgeoPath` (edge_distance.dfy) | postgeodb/path.go, the distance query shared with geo/path.go and path.go |
| `GeoPath`, `ViaPath` | geo/path.go and path.go: multi-edge and single-edge path pipelines |
| `ViaError` | error/error.go |
| `Api` | the handlers of api.go: PostMatrix, GetMatrix, GetMatrixResult, PostResolve |
| `Text`, `Hex`, `Varint`, `Wrappers`, `GeoTypes` | the Go library behaviour the core relies on: `%d` formatting, `strings.Index`, `strings.ToLower`, `hex.EncodeToString`, `binary.PutVarint`/`binary.Varint`, and the shared record types |

The Redis client is a class whose methods change its hash and TTL maps. The handlers and
engines that write to it are classes whose methods are proved against pure specification
functions over the store's abstract state. Every lemma about the behaviour is stated over
those functions. The geoindexer keeps its arrays: each worker fills its destination slice in
place.

The SHA-256 digest, gob encoding, JSON decoding of request bodies, SQL queries and the native
engine are all outside the core. They appear as function-valued parameters: the `Engine`,
`ViaEngine`, `PathEngine`, `SinglePathEngine` and `GeoDB` records. Properties that depend on
them take their assumptions as explicit predicates: `DigestWidth` (32-byte digests),
`CollisionFree` (an idealised injective digest), `NoCollisionOn` (no collision between two
given texts, the assumption actually made of SHA-256 where digest width matters), `Lawful`
(a codec whose decoding inverts its encoding) and `SprintBracketed`.

## Model

| member | source | states |
|---|---|---|
| JobStore.Store.Exists | geo/matrix.go:35 | EXISTS is true exactly when the key holds a hash |
| JobStore.Store.Hexists | geo/matrix.go:74 | HEXISTS is true exactly when the key holds a hash with that field |
| JobStore.Store.Hget | api.go:160-164 | HGET succeeds with the stored value exactly when the field exists; otherwise it fails with the client's missing-key error `KeyMissing` |
| JobStore.Store.Hset | geo/matrix.go:45-47 | HSET writes one field and creates the hash if needed; TTLs are untouched and the store stays well formed |
| JobStore.Store.Ttl | geo/matrix.go:39 | TTL answers -2 for a missing key, -1 for a key without expiry, and otherwise the seconds last set |
| JobStore.Store.Expire | geo/matrix.go:40 | EXPIRE reports whether the key existed; a positive TTL is recorded and a non-positive one deletes the key; other keys are untouched |
| JobStore.ExpireState | geo/matrix.go:61 | the EXPIRE state change: keeps well-formedness, sets or deletes only that key |
| JobStore.TtlOf | geo/matrix.go:39 | -2 exactly for missing keys and -1 exactly for persistent ones, in a well-formed state |
| JobStore.PutAllOtherKeys | geo/matrix.go:45-60 | a run of HSETs on one key adds at most that key and leaves every other hash unchanged |
| JobStore.PutAllField | geo/matrix.go:45-60 | after a run of HSETs a field exists exactly when some write or the old hash gave it one, and it holds the last value written |
| JobStore.FieldAfterLastWrite | geo/matrix.go:45-60 | a field's value is that of its last write |
| JobStore.ExpireAfterWrites | geo/matrix.go:45-61 | HSETs on a key followed by EXPIRE give that key the TTL and leave the other keys' hashes and TTLs alone |
| Hex.EncodeInjective | geo/matrix.go:23 | hex encoding never maps two byte strings to the same text |
| Hex.DecodeEncode | matrix.go:22-23 | hex decoding inverts hex encoding |
| Hex.EncodeIsHex | matrix.go:22-23 | the encoding uses only lower-case hex digits |
| Varint.VarintRoundTrip | geo/matrix.go:49-51 | `binary.Varint` decodes what `binary.PutVarint` wrote, for every 64-bit value, consuming all of it |
| Varint.ZigZag | geo/matrix.go:50 | the zig-zag code is even exactly for non-negative numbers and fits 64 bits for 64-bit inputs |
| Varint.PutUvarint | geo/matrix.go:50 | every byte but the last has the continuation bit set |
| Text.IntDecimalInjective | geo/matrix.go:20 | `%d` formatting is injective |
| Text.NoSeparatorInDecimal | geo/matrix.go:20 | a character that is neither a digit nor a minus sign never occurs in a `%d` rendering |
| Text.ToLowerIdempotent | geo/address.go:27 | lower-casing twice is lower-casing once |
| JobSpec.CreateMatrixHash | geo/matrix.go:18-24 | the key is a hex string twice as long as the digest |
| JobSpec.SameInputSameKey | geo/matrix.go:18-24 | requests that format to the same text get the same key |
| JobSpec.NoSeparator | geo/matrix.go:20 | matrix text and country are concatenated without a separator, so ("ab","c") and ("a","bc") share a key |
| JobSpec.KeyDeterminesInput | geo/matrix.go:18-24 | for a collision-free digest, two keys are equal exactly when the formatted inputs are |
| JobSpec.TestedPairsDiffer | matrix_test.go:31-45 | changing the country or the speed profile changes the key, as the tests expect |
| JobSpec.ProxyKeyCollision | geo/matrix.go:37 | as written, every clock reading at or above 0x110000 converts to the same rune, so all proxy keys of one request coincide |
| JobSpec.ProxyKeyUnique | geo/matrix.go:37 | with the clock formatted as a decimal number, distinct readings give distinct proxy keys |
| JobSpec.ProxyInputDiffers | geo/matrix.go:18-24 | the text hashed for a proxy key never equals the text hashed for its primary: one starts with "[", the other with a hex digit |
| JobSpec.ProxyKeyDiffers | geo/matrix.go:37 | a proxy key never equals the primary key it points to, when SHA-256 does not collide on those two texts |
| JobSpec.CreateNew | geo/matrix.go:45-64 | a new request makes one record: progress "initializing", result "0", the country, the varint speed profile (decoding to the request's), the gob matrix (decoding to the request's), with the configured TTL; all else is unchanged |
| JobSpec.CreateProxy | geo/matrix.go:35-43 | a repeated request adds one proxy record whose "see" field names the primary, with the primary's TTL; all else is unchanged |
| JobSpec.DuplicateCreate | matrix_test.go:56-80 | posting the same request twice gives a new record, then a proxy under a different key, both with the same TTL |
| JobSpec.NewRecordWritten | geo/matrix.go:45-60 | the five HSETs of a new request produce exactly the new record |
| JobSpec.FiveWritesToNewKey | geo/matrix.go:45-60 | five HSETs on a fresh key make a hash of exactly those fields |
| JobSpec.ProgressSpec | geo/matrix.go:68-81 | progress fails exactly for missing keys, with "no matrix found for hash" and the key |
| JobSpec.ProxyProgress | geo/matrix.go:74-79 | a proxy reports its primary's progress, or "" when the primary has expired |
| JobSpec.CreatedProgress | geo/matrix.go:45 | right after creation, and after a repeated creation, progress reads "initializing" |
| JobSpec.ProxyCreatedProgress | geo/matrix.go:74-79 | a freshly made proxy reports the live primary's progress |
| JobSpec.NewRecordProgress | geo/matrix.go:45 | a new record reads "initializing" |
| JobSpec.FirstBraceRepair | geo/matrix.go:140-148 | the repaired answer ends in its first "}"; without one, a "}" is appended; otherwise the answer is cut after it |
| JobSpec.FirstBraceRepairIdempotent | geo/matrix.go:140-148 | repairing twice is repairing once |
| JobSpec.RepairsAgreeOnOneBrace | spp_server.go:169-177 | the matrix repair and `CleanCppMessage` agree on answers with exactly one "}" |
| JobSpec.ComputeWrites | geo/matrix.go:84-157 | the job first writes "Geoindexing", and writes only to its own key |
| JobSpec.StatusKeeps | geo/matrix.go:89-92 | a progress write leaves every other field as it was |
| JobSpec.ComputeOutcome | geo/matrix.go:89-156 | progress ends "complete" exactly when every step succeeds and "error" otherwise; on success the result is the repaired engine answer; on failure the result field is untouched; other keys are untouched |
| JobSpec.ComputeMissingKey | geo/matrix.go:105-107 | a job for an expired key leaves a persistent record holding only progress "error" |
| JobSpec.CreateThenCompute | geo/matrix.go:31-157 | creating a record and then computing it ends "complete" with the repaired engine answer for the indexed matrix |
| JobSpec.GeoCreateThenCompute | geo/matrix.go:120-137 | the same with the geoindexer: the engine input is the JSON of the coordinates' node ids |
| GeoMatrix.Geo.CreateMatrixComputation | geo/matrix.go:31-65 | the store after the call, the key and the proxy flag are those of `JobSpec.CreateSpec` |
| GeoMatrix.Geo.GetMatrixComputationProgress | geo/matrix.go:68-81 | the answer is `JobSpec.ProgressSpec` of the current store |
| GeoMatrix.Geo.SetStatus | geo/matrix.go:89-92 | one progress write, TTLs untouched |
| GeoMatrix.Geo.ComputeMatrix | geo/matrix.go:84-157 | the store after the job is the old one with `JobSpec.ComputeWrites` applied |
| GeoMatrix.Geo.Compute | geo/matrix.go:125-156 | writes "computing", the repaired engine answer, then "complete" |
| SppServer.Server.CreateComputation | spp_server.go:58-93 | as `JobSpec.CreateSpec`, with the fixed 3600-second TTL |
| SppServer.Server.GetComputationProgress | spp_server.go:96-109 | the answer is `JobSpec.ProgressSpec` of the current store |
| SppServer.Server.SetStatus | spp_server.go:117-120 | one progress write, TTLs untouched |
| SppServer.Server.Compute | spp_server.go:112-186 | the store after the job is the old one with `JobSpec.ComputeWrites` applied, using `dump_matrix_to_json` |
| SppServer.Server.Calculate | spp_server.go:154-185 | writes "computing", the repaired engine answer, then "complete" |
| ViaMatrix.CreateMatrixHash | matrix.go:19-25 | the key is 64 lower-case hex digits |
| ViaMatrix.KeysFollowDraws | matrix.go:19-25 | two keys are equal exactly when the random draws are |
| ViaMatrix.CreateFields | matrix.go:32-57 | the record holds "initializing", "0", the country, the ratios hash, a speed profile decoding to the request's and data decoding to the matrix; it has the TTL; other keys are unchanged |
| ViaMatrix.CreateWritesFirst | matrix.go:36-38 | the first three HSETs: progress, result and country |
| ViaMatrix.CreateWritesLast | matrix.go:39-52 | the last three HSETs: ratios hash, varint speed profile and gob data |
| ViaMatrix.ProgressSpec | matrix.go:60-71 | progress succeeds exactly when the field exists, with its value; a missing key is a matrix-not-found request error with status 400 |
| ViaMatrix.CalculateWrites | matrix.go:125-150 | the writes start with "computing", hold "error" once for a failed decode and once for a failed encoding, then store the encoding of whatever the decoder left in the map, partial or nil, and end with "complete" |
| ViaMatrix.ParseErrorOverwritten | matrix.go:131-150 | as written, "error" is written exactly when parsing or encoding fails, yet progress always ends "complete" with a result |
| ViaMatrix.ComputeWrites | matrix.go:74-155 | the intended job writes only to its own key |
| ViaMatrix.IntendedOutcome | matrix.go:131-150 | with failures stopping the job, progress ends "complete" exactly when it succeeds, "error" exactly when it fails, and a result is written only on success |
| ViaMatrix.Via.CreateMatrixComputation | matrix.go:32-57 | the key is the hex of the random draw and the store is `ViaMatrix.CreateSpec` |
| ViaMatrix.Via.GetMatrixComputationProgress | matrix.go:60-71 | the answer is `ViaMatrix.ProgressSpec` of the current store |
| ViaMatrix.Via.SetStatus | matrix.go:83-86 | one progress write, TTLs untouched |
| ViaMatrix.Via.ComputeMatrix | matrix.go:74-155 | the store after the job is the old one with the as-written writes applied, the partially decoded map included |
| ViaMatrix.Via.Calculate | matrix.go:125-150 | the store gets `ViaMatrix.CalculateWrites` of the engine's answer: the decoder's map is encoded and stored even when decoding failed |
| Geoindexer.Found | geo/geoindex.go:29-43 | the node ids of a chunk, skipping coordinates with no row, or the first query error |
| Geoindexer.FoundIds | geo/geoindex.go:29-43 | without errors, the found ids are the ids of the coordinates that have a row, in order |
| Geoindexer.FoundFails | geo/geoindex.go:29-43 | a chunk fails exactly when some coordinate's query fails |
| Geoindexer.FoundFirstError | geo/geoindex.go:29-43 | the error returned is that of the first failing coordinate |
| Geoindexer.FoundPrefixFailure | geo/geoindex.go:29-43 | once a prefix fails, the whole chunk fails the same way |
| Geoindexer.Geoindex | geo/geoindex.go:21-49 | on success the destination array holds the found ids over its old contents (the `copy`); on error the error is returned |
| Geoindexer.Copy | geo/geoindex.go:46 | Go's `copy`: the first min(len) entries come from the source, the rest stay |
| Geoindexer.ChunksCover | geo/geoindex.go:58-79 | the chunks, concatenated in order, are the coordinates |
| Geoindexer.PlanContiguous | geo/geoindex.go:58-79 | each chunk starts where the previous one ends |
| Geoindexer.PlanBounds | geo/geoindex.go:58-79 | every chunk lies inside the coordinates; there are `connections` chunks plus one for a remainder |
| Geoindexer.EqualChunks | geo/geoindex.go:58-70 | `connections` chunks of `len / connections`, each with its own zeroed destination array |
| Geoindexer.SplitChunks | geo/geoindex.go:58-79 | the planned chunks, with a remainder chunk only when there is one, each with its own zeroed array |
| Geoindexer.RunJobs | geo/geoindex.go:84-106 | workers run in chunk order; the first error is returned, otherwise each destination holds its chunk's result |
| Geoindexer.Flatten | geo/geoindex.go:109-112 | the result is the destination arrays concatenated |
| Geoindexer.RunGeoindexer | geo/geoindex.go:54-114 | an odd connection count above 1 is rejected with the message; otherwise the result is the chunk results recombined |
| Geoindexer.RecombinedFails | geo/geoindex.go:103-113 | recombination fails exactly when some chunk fails |
| Geoindexer.RecombinedLength | geo/geoindex.go:109-113 | a successful recombination is as long as all chunk results together |
| Geoindexer.RecombinedAligned | geo/geoindex.go:109-113 | when every coordinate has a row, recombination gives the ids of the coordinates in order |
| Geoindexer.IndexedSpec | geo/geoindex.go:54-114 | the geoindexer fails exactly when some coordinate's query fails; a success has one entry per coordinate; when every coordinate has a row, entry i is the node of coordinate i |
| GeoProcess.CleanCppMessage | geo/process.go:31-43 | the cleaned message ends at its last "}", or has one appended |
| GeoProcess.CleanIdempotent | geo/process.go:31-43 | cleaning twice is cleaning once |
| GeoProcess.CleanKeepsTerminated | geo/process.go:31-43 | a message that ends in "}" is left as it is |
| GeoProcess.MatrixToJson | geo/process.go:23-29 | the engine input is a `{"sources":…}` object |
| GeoProcess.MatrixJsonRoundTrip | geo/process.go:23-29 | parsing the engine input gives back the node list; an empty list is Go's nil slice, rendered `{"sources":null}` |
| GeoProcess.MatrixToJsonInjective | geo/process.go:23-29 | different node lists give different engine inputs |
| GeoProcess.ParseJsonMatrix | geo/process.go:12-20 | a decoded matrix is returned as decoded; a decoding error is prefixed with the parsing-error text |
| ViaProcess.DumpMatrixToJson | process.go:24-30 | the same object as the geo package, and it parses back to the node list |
| ViaProcess.ParseJsonMatrix | process.go:13-20 | the same contract as the geo package's |
| GeoAddress.GetFuzzyAddress | geo/address.go:21-36 | only "finland" and "germany", in any case, are searched; any other country fails with "Country … not recognized" |
| GeoAddress.ResolveLocation | geo/address.go:86-125 | without a coordinate: the best match, or confidence 30 (no street, no match) or 20 (lookup failed); with one: the country is required and only latitude and longitude change, to the nearest node's |
| GeoAddress.SnapStable | geo/address.go:113-123 | resolving an already snapped location gives it back unchanged |
| GeoTypes.IsMissingCoordinate | geo/path.go:13-18 | a location is missing its coordinate exactly when the point it would be snapped from is the origin (0, 0); path.go:50-55 is the same test |
| ViaAddress.ResolveLocation | address.go:76-113 | the main package's variant: errors return the zero location; "Street empty, cannot search." without a street |
| ViaAddress.VariantsAgree | address.go:76-113 | snapping a coordinate agrees with the geo variant on every success, and errors there are errors in both; for a street search the same holds only when the two packages' searches find the same best match; a missing street is an error here and a confidence-30 answer there |
| ViaError.NewError | error/error.go:40-46 | internal errors get their table message, unknown codes an empty one |
| ViaError.NewRequestError | error/error.go:49-55 | request errors have an empty message |
| ViaError.ErrorText | error/error.go:58-60 | the text is the message, " (", the cause and ")" |
| ViaError.ErrorTextDeterminesCause | error/error.go:58-60 | two errors with the same message have the same text exactly when their causes are equal |
| ViaError.StatusCode | error/error.go:67-73 | 500 exactly for the two internal codes, 400 for everything else |
| ViaError.MatrixNotFoundIsBadRequest | error/error.go:67-73 | a missing matrix is a 400 whose text is " (cause)" |
| PostgeoPath.EdgePairs | postgeodb/path.go:20-24 | one "(a,b)" pair per consecutive pair of nodes |
| PostgeoPath.CollectEdgePairs | postgeodb/path.go:18-24 | the loop builds exactly `EdgePairs` |
| PostgeoPath.DistanceSpec | postgeodb/path.go:10-43 | fewer than two nodes give 0 with no query; otherwise the summed distance, "No distance found. Check points exist." for no row, or the database's error |
| PostgeoPath.QueryDistance | postgeodb/path.go:10-43 | the answer is `DistanceSpec` |
| PostgeoPath.QueryDeterminesPath | postgeodb/path.go:26-30 | the distance query names its node path unambiguously |
| PostgeoPath.PairListDeterminesPath | postgeodb/path.go:20-26 | the joined pair list determines the node path |
| GeoPath.EdgeListJsonInjective | geo/path.go:76 | the engine input determines the list of node edges |
| GeoPath.EngineCountry | geo/path.go:81-84 | the engine sees the lower-cased country followed by a NUL |
| GeoPath.PatchSuffix | geo/path.go:89-91 | "]}" is appended exactly when the answer does not end in "]}]}" |
| GeoPath.CalculatePaths | geo/path.go:75-102 | the decoder reads the repaired engine answer, which ends in "]}", and the country reaches the engine only lower-cased |
| GeoPath.PatchedAnswerCloses | geo/path.go:87-91 | the patched answer always ends in "]}", and a well-closed answer is left as it was |
| GeoPath.PathsIgnoreCountryCase | geo/path.go:75-102 | countries that are equal up to case give the same paths |
| GeoPath.Endpoint | geo/path.go:110-130 | a location with a coordinate is used as given; a missing one is resolved, its error aborts, and the input country is kept |
| GeoPath.CorrectCoordinates | geo/path.go:55-73 | both endpoints are snapped in the source's lower-cased country; the first failure is the answer |
| GeoPath.SnapIgnoresTargetCountry | geo/path.go:60 | the target's country plays no part in snapping |
| GeoPath.EdgeNode | geo/path.go:107-137 | a node edge holds the ids of the snapped, resolved endpoints |
| GeoPath.Traverse | geo/path.go:107-138 | a successful collection has one entry per input |
| GeoPath.TraverseSuccess | geo/path.go:107-138 | the collection succeeds exactly when every step does, with each step's value in place |
| GeoPath.TraverseFirstFailure | geo/path.go:107-138 | a failure is that of the first failing step |
| GeoPath.CollectNodeEdges | geo/path.go:105-138 | the loop gives `Traverse` of the edge conversion |
| GeoPath.CoordinatePathFor | geo/path.go:149-163 | a path gets its coordinates and distance in the country, its time is its length, and either lookup's error aborts |
| GeoPath.CollectCoordinatePaths | geo/path.go:147-165 | the loop gives `Traverse` of the per-path lookups |
| GeoPath.CalculateCoordinatePaths | geo/path.go:104-166 | the answer is `CoordinatePathsSpec` |
| GeoPath.CoordinatePathsShape | geo/path.go:104-166 | a success converted every edge, routed them in the first edge's country, and has one path per engine path with its time, coordinates and distance |
| GeoPath.CoordinatePathsFirstEdgeError | geo/path.go:107-138 | when an edge cannot be converted, the error is that of the first such edge |
| ViaPath.PathInputInjective | path.go:24-32 | the engine input names both nodes unambiguously |
| ViaPath.PathText | path.go:37-41 | the cleaned engine answer ends in "}" |
| ViaPath.CalculatePath | path.go:23-48 | for a lower-case country the engine gets what the geo package sends it and its cleaned answer is decoded |
| ViaPath.CountryCaseReachesEngine | path.go:37-40 | the country is not lower-cased here: "Finland" and "finland" can give different answers |
| ViaPath.PathCountryAsGeo | path.go:37-40 | given a lower-cased country, the engine sees what the geo package would send |
| ViaPath.Endpoint | path.go:95-111 | an endpoint with a coordinate is kept; a missing one is resolved, and a resolution error aborts |
| ViaPath.CalculateCoordinatePathFromAddresses | path.go:92-147 | the answer is `FromAddressesSpec` |
| ViaPath.FromAddressesShape | path.go:92-147 | a success snapped each endpoint in its own input country, routed in the source's country, and carries the path's length, coordinates and distance |
| ViaPath.SourceResolutionErrorAborts | path.go:95-101 | a source that cannot be resolved aborts with the resolution error |
| ViaPath.SnapUsesRequestCountries | path.go:93-94 | snapping reads the request's countries, not the resolved addresses' |
| Api.Contains | api.go:16-23 | true exactly when the value is in the list |
| Api.AllowedSpeedsFit | api.go:14 | every allowed speed profile fits the 8-byte varint buffer |
| Api.FirstOutside | api.go:25-43 | none exactly when every coordinate is inside the box; otherwise the first index outside |
| Api.CheckCoordinateSanity | api.go:25-43 | the loop finds `FirstOutside`, and finds none exactly when the matrix is sane |
| Api.BoundingBoxTable | api_test.go:31-50 | the tested coordinates are inside or outside the Finland and Germany boxes as the tests expect |
| Api.ParamsPresentAsWritten | api.go:64-68 | as written, the check passes exactly when "country", the last parameter, is present |
| Api.ParamsPresent | api.go:64-68 | the intended check passes exactly when all three parameters are present |
| Api.MissingMatrixAccepted | api.go:64-70 | a blob without a matrix passes the as-written check and fails the intended one |
| Api.TruncateToInt | api.go:75 | conversion of a float to int truncates toward zero |
| Api.ValidatedRequest | api.go:64-102 | an accepted request has a string matrix that decodes to sane coordinates, a known country and an allowed speed; a rejection is 400, 422 or a panic; 400 exactly when "country" is missing |
| Api.IntendedValidateSpec | api.go:64-111 | with the intended check, 400 exactly when some parameter is missing, and a panic only on a non-string matrix or country |
| Api.MissingParamsDisagreement | api.go:64-81 | the two checks agree when all parameters are present or the country is missing; without a matrix the handler panics; without a speed profile it rejects speed 0 |
| Api.PostMatrix | api.go:49-118 | a rejection changes nothing and launches nothing; an accepted request is created as by `CreateSpec`, redirects 201 to "/spp/" and its key, and launches a job only for a new record |
| Api.GetMatrix | api.go:122-140 | the answer is `StatusSpec`: 500 on a progress error, 303 to the result when complete, the progress JSON otherwise |
| Api.GetMatrixResult | api.go:142-172 | the answer is `ResultSpec` |
| Api.ServedOnlyWhenComplete | api.go:142-172 | a result is served only from a complete record, proxy followed, wrapped as `{ "Matrix": … }` |
| Api.RedirectIffReady | api.go:122-172 | the status redirects exactly when the result request is neither expired nor not ready |
| Api.PostResolve | api.go:340-369 | the answer is `ResolveSpec` |
| Api.ResolveOutcome | api.go:340-369 | the reply is given exactly when every location resolves, and holds them in order; an abort carries the first resolution error |

## Left out

- HTTP plumbing is not modelled: contexts, headers, content types, the web framework's routing.
- GetServerStatus, GetCorrectCoordinate, GetNodesToCoordinates, GetPath and GetCoordinatePath (api.go:174-338) are thin handlers over the modelled calls and are left out.
- Goroutines and channels are not modelled. `go server.ComputeMatrix(hash)` is reported as the `launched` result of `Api.PostMatrix`, not run. The geoindexer's workers run one after the other in chunk order. The first error in chunk order stands for the first error the channel delivers.
- Geoindexer.RunGeoindexer: requires at least one connection. In Go, zero divides by zero. Both callers pass 4.
- SQL, the native engines (`ch.Calc_dm`, `ch.Calc_paths`, `dmatrix.Calc_path`), gob, SHA-256, `crypto/rand` and JSON decoding of request bodies are not modelled. They are parameters, so contracts are stated in terms of what they return.
- Go's float64 is modelled as `real`. The `int(sum)` truncation of distances happens inside the `sumQuery` oracle. Float formatting in error messages (`%f`, `%v`) is the `Formatter` parameter.
- The order of the country list in the "not allowed" message follows Go map iteration, so it is not modelled; it is the `Formatter.countries` parameter.
- `strings.ToLower` is modelled on ASCII letters only.
- Api.PostMatrix: takes the request body already decoded into a parameter map. A body that is not a JSON object decodes to no parameters, the case where Go's map stays nil.
- A `Coord` with fewer than two components makes Go panic. The model's coordinates always have both.
- geo/path.go calls `Edges[0]` on the input. The model requires a non-empty edge list, and `RequestCountry` reads the first edge's source country.
- geo/path.go does not compile as shown: `CorrectPoint` and `GetCoordinates` take an undefined `config`, and `clean_json_cpp_message` lives in another package. It is modelled with `closestPoint`, `coordinates` and `GeoProcess.CleanCppMessage`.
- The main package's `clean_json_cpp_message` is not part of this model. path.go is modelled with `GeoProcess.CleanCppMessage`.
- The main package's `bounding_boxes` is not part of this model. The values of geo/boundaries.go are used.
- api.go calls `CreateMatrixComputation` and `GetMatrixComputationProgress` on the main-package server. These are the spp_server.go `CreateComputation` and `GetComputationProgress`, and are modelled as such.
- Api.GetMatrixResult: an empty stored result is served as an empty matrix. Go's `data != nil` test cannot distinguish it.
- The main package's `GetFuzzyAddress` (address.go:33-74) runs a different query from the geo package's and ignores `count`. It is its own oracle, `mainFuzzyAddress`, which takes no count.
- `toJSONString` and `WriteTo` of error/error.go are left out. They only serialise the error.
- The `sql.Open` error, ignored in Go, is not modelled. `json.Marshal` errors on these types cannot happen and are not modelled either.
- JobSpec.ProxyProgress: a proxy whose primary has expired reads "", so a caller cannot tell an expired primary from an empty progress field.
- JobStore.KeyMissing: the text of the Redis client's missing-key error, "Key does not exist ", is assumed; the client library is not part of this model.
- Time is not modelled: TTLs do not count down. The clock reading is the `stamp` parameter.
- The `GeoDB` interface is a record of functions, not an interface. No SQL-backed implementation is modelled.

## Findings

| source | as written | input that shows it | evidently intended | confidence | as-written member | corrected member |
|---|---|---|---|---|---|---|
| geo/matrix.go:37 | `string(time.Now().UnixNano())` converts the clock to one rune, and any reading above 0x10FFFF becomes U+FFFD | two duplicate POSTs at any two clock readings at or above 0x110000 get the same proxy key | the clock reading formatted as a number, so every proxy key is fresh | not executed | JobSpec.ProxyKeyCollision | JobSpec.ProxyKeyUnique |
| matrix.go:131-150 | on a parse or encode failure "error" is written, and the job goes on to write a result and "complete" | an engine answer that is not JSON: progress ends "complete" | the job stops at the failure and progress stays "error" | not executed | ViaMatrix.ParseErrorOverwritten | ViaMatrix.IntendedOutcome |
| api.go:64-68 | the loop overwrites `ok` on every parameter, so only "country", the last one, counts | `{"country":"finland"}`: accepted, then `paramBlob["matrix"].(string)` panics | all three parameters required, else 400 | not executed | Api.MissingMatrixAccepted | Api.ParamsPresent |

The handlers and engines keep the code's behaviour: `Api.PostMatrix` uses the as-written
parameter check, `ViaMatrix.Via.ComputeMatrix` the as-written writes and `JobSpec.CreateSpec`
the as-written proxy key. Each corrected definition is proved next to it:

- `Api.IntendedValidateSpec` and `Api.MissingParamsDisagreement` state where the two
  validations differ.
- `ViaMatrix.ComputeWrites` and `ViaMatrix.IntendedOutcome` describe the job that stops at
  the first failure.
- `JobSpec.ProxyKey` and `JobSpec.ProxyKeyUnique` give a proxy key that is fresh for every
  clock reading.
