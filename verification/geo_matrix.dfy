/** geo/matrix.go: the matrix engine of the geo package. A `Geo` holds the Redis connection,
    the engine's oracles and the TTL of new records; its three operations are proved against
    the record specification of JobSpec. */
module GeoMatrix {
  import opened Wrappers
  import opened Text
  import opened Hex
  import Varint
  import opened GeoTypes
  import opened JobStore
  import opened JobSpec
  import Geoindexer
  import GeoProcess

  class Geo {
    const client: Store
    const env: Engine
    /** `g.Expiry`: the TTL, in seconds, of a new record. */
    const expiry: int

    constructor (client: Store, env: Engine, expiry: int)
      ensures this.client == client && this.env == env && this.expiry == expiry
    {
      this.client := client;
      this.env := env;
      this.expiry := expiry;
    }

    /** `CreateMatrixComputation`: the key of the request and whether it is a proxy of an
        earlier identical request. `stamp` is the nanosecond clock reading. */
    method CreateMatrixComputation(matrix: seq<Coord>, country: string, speedProfile: int, stamp: int)
      returns (key: string, proxy: bool)
      requires client.Valid() && FitsVarintBuffer(speedProfile)
      modifies client
      ensures client.Valid()
      ensures Created(client.State(), key, proxy) ==
        CreateSpec(env, old(client.State()), matrix, country, speedProfile, stamp, expiry)
    {
      var c := client;
      var matrixHash := CreateMatrixHash(env.sha, env.sprint(matrix), country, speedProfile);
      var present := c.Exists(matrixHash);
      if present {
        var newHash := CreateMatrixHash(env.sha, matrixHash + RuneString(stamp), country, speedProfile);
        c.Hset(newHash, SeeField, matrixHash);
        var ttl := c.Ttl(matrixHash);
        var _ := c.Expire(newHash, ttl);
        return newHash, true;
      }
      ghost var h0 := c.hashes;
      c.Hset(matrixHash, ProgressField, "initializing");
      c.Hset(matrixHash, ResultField, "0");
      c.Hset(matrixHash, CountryField, country);
      var bif := Varint.PutVarint(speedProfile);
      c.Hset(matrixHash, SpeedProfileField, Chars(bif));
      var buf := env.gob.encode(matrix);
      c.Hset(matrixHash, DataField, buf.bytes);
      RecordWrites(h0, NewRecordWrites(env, matrixHash, matrix, country, speedProfile));
      var _ := c.Expire(matrixHash, expiry);
      return matrixHash, false;
    }

    /** `GetMatrixComputationProgress`. */
    method GetMatrixComputationProgress(matrixHash: string) returns (r: Result<string, string>)
      ensures r == ProgressSpec(client.State(), matrixHash)
    {
      var c := client;
      var workingHash := matrixHash;
      var present := c.Exists(workingHash);
      if !present {
        return Failure("no matrix found for hash " + workingHash);
      }
      var proxy := c.Hexists(workingHash, SeeField);
      if proxy {
        var pointer := c.Hget(workingHash, SeeField);
        workingHash := OrEmpty(pointer);
      }
      var progress := c.Hget(workingHash, ProgressField);
      return Success(OrEmpty(progress));
    }

    /** The `set_status` closure of `ComputeMatrix`. */
    method SetStatus(matrixHash: string, status: string)
      requires client.Valid()
      modifies client
      ensures client.Valid()
      ensures client.hashes == Put(old(client.hashes), Write(matrixHash, ProgressField, status))
      ensures client.ttls == old(client.ttls)
    {
      client.Hset(matrixHash, ProgressField, status);
    }

    /** `ComputeMatrix`: a failed read or decode, or a geoindexing error, panics and the
        deferred recovery sets the status "error". */
    method ComputeMatrix(matrixHash: string)
      requires client.Valid()
      modifies client
      ensures client.Valid()
      ensures client.hashes ==
        PutAll(old(client.hashes), ComputeWrites(env, GeoIndexer(env.lookup), GeoProcess.MatrixToJson, old(client.hashes), matrixHash))
      ensures client.ttls == old(client.ttls)
    {
      var rc := client;
      ghost var h0 := rc.hashes;
      ghost var index := GeoIndexer(env.lookup);
      ghost var failed := [Write(matrixHash, ProgressField, "Geoindexing"), Write(matrixHash, ProgressField, "error")];
      PutAllPair(h0, failed[0], failed[1]);
      SetStatus(matrixHash, "Geoindexing");
      StatusKeeps(h0, matrixHash, "Geoindexing", DataField);
      StatusKeeps(h0, matrixHash, "Geoindexing", CountryField);
      var data := rc.Hget(matrixHash, DataField);
      if data.Failure? {
        SetStatus(matrixHash, "error");
        return;
      }
      var coords := env.gob.decode(data.value);
      if coords.None? {
        SetStatus(matrixHash, "error");
        return;
      }
      var country := rc.Hget(matrixHash, CountryField);
      var nodes := Geoindexer.RunGeoindexer(env.lookup, OrEmpty(country), coords.value, 4);
      assert nodes == index(FieldOr(h0, matrixHash, CountryField), coords.value);
      if nodes.Failure? {
        SetStatus(matrixHash, "error");
        return;
      }
      assert Completes(env, index, h0, matrixHash);
      StatusKeeps(h0, matrixHash, "Geoindexing", SpeedProfileField);
      Compute(matrixHash, OrEmpty(country), nodes.value);
      PutAllFour(h0, Write(matrixHash, ProgressField, "Geoindexing"), Write(matrixHash, ProgressField, "computing"),
        Write(matrixHash, ResultField, FirstBraceRepair(EngineOutput(env, index, GeoProcess.MatrixToJson, h0, matrixHash))),
        Write(matrixHash, ProgressField, "complete"));
    }

    /** The "computing" stage of `ComputeMatrix`: the engine runs on the nodes, its repaired
        output is stored as the result and the status becomes "complete". */
    method Compute(matrixHash: string, country: string, nodes: seq<int>)
      requires client.Valid()
      modifies client
      ensures client.Valid()
      ensures client.hashes == Put(Put(Put(old(client.hashes),
        Write(matrixHash, ProgressField, "computing")),
        Write(matrixHash, ResultField, FirstBraceRepair(env.calcDm(GeoProcess.MatrixToJson(nodes), country,
          Varint.VarintOf(Bytes(FieldOr(old(client.hashes), matrixHash, SpeedProfileField))).value)))),
        Write(matrixHash, ProgressField, "complete"))
      ensures client.ttls == old(client.ttls)
    {
      var rc := client;
      ghost var h0 := rc.hashes;
      SetStatus(matrixHash, "computing");
      StatusKeeps(h0, matrixHash, "computing", SpeedProfileField);
      var jsonData := GeoProcess.MatrixToJson(nodes);
      var speedProfileRaw := rc.Hget(matrixHash, SpeedProfileField);
      var speedProfile := Varint.VarintOf(Bytes(OrEmpty(speedProfileRaw))).value;
      var res := env.calcDm(jsonData, country, speedProfile);
      ghost var raw := res;
      var braceIndex := IndexOf(res, '}');
      if braceIndex == -1 {
        res := res + "}";
      } else if braceIndex != |res| - 1 {
        res := res[..braceIndex + 1];
      }
      assert res == FirstBraceRepair(raw);
      rc.Hset(matrixHash, ResultField, res);
      SetStatus(matrixHash, "complete");
    }
  }
}
