/** spp_server.go: the earlier copy of the matrix engine in the main package. It differs from
    geo/matrix.go in that new records always live 3600 seconds, the geoindexer is the
    server's own, and the engine input comes from `dump_matrix_to_json`. */
module SppServer {
  import opened Wrappers
  import opened Text
  import opened Hex
  import Varint
  import opened GeoTypes
  import opened JobStore
  import opened JobSpec
  import ViaProcess

  /** The `expiry` constant: the TTL, in seconds, of a new record. */
  const Expiry := 3600

  class Server {
    const client: Store
    const env: Engine
    /** `server.RunGeoindexer(country, coords, 4)`. */
    const index: Indexer

    constructor (client: Store, env: Engine, index: Indexer)
      ensures this.client == client && this.env == env && this.index == index
    {
      this.client := client;
      this.env := env;
      this.index := index;
    }

    /** `CreateComputation`: the key of the request and whether it is a proxy. */
    method CreateComputation(matrix: seq<Coord>, country: string, speedProfile: int, stamp: int)
      returns (key: string, proxy: bool)
      requires client.Valid() && FitsVarintBuffer(speedProfile)
      modifies client
      ensures client.Valid()
      ensures Created(client.State(), key, proxy) ==
        CreateSpec(env, old(client.State()), matrix, country, speedProfile, stamp, Expiry)
    {
      var c := client;
      var matrixHash := CreateMatrixHash(env.sha, env.sprint(matrix), country, speedProfile);
      var present := c.Exists(matrixHash);
      if present {
        var newHash := CreateMatrixHash(env.sha, matrixHash + RuneString(stamp), country, speedProfile);
        c.Hset(newHash, SeeField, matrixHash);
        var ttl := c.Ttl(matrixHash);
        var _ := c.Expire(newHash, ttl);
        return newHash, true;
      }
      ghost var h0 := c.hashes;
      c.Hset(matrixHash, ProgressField, "initializing");
      c.Hset(matrixHash, ResultField, "0");
      c.Hset(matrixHash, CountryField, country);
      var bif := Varint.PutVarint(speedProfile);
      c.Hset(matrixHash, SpeedProfileField, Chars(bif));
      var buf := env.gob.encode(matrix);
      c.Hset(matrixHash, DataField, buf.bytes);
      RecordWrites(h0, NewRecordWrites(env, matrixHash, matrix, country, speedProfile));
      var _ := c.Expire(matrixHash, 3600);
      return matrixHash, false;
    }

    /** `GetComputationProgress`. */
    method GetComputationProgress(matrixHash: string) returns (r: Result<string, string>)
      ensures r == ProgressSpec(client.State(), matrixHash)
    {
      var c := client;
      var workingHash := matrixHash;
      var present := c.Exists(workingHash);
      if !present {
        return Failure("no matrix found for hash " + workingHash);
      }
      var proxy := c.Hexists(workingHash, SeeField);
      if proxy {
        var pointer := c.Hget(workingHash, SeeField);
        workingHash := OrEmpty(pointer);
      }
      var progress := c.Hget(workingHash, ProgressField);
      return Success(OrEmpty(progress));
    }

    /** The `set_status` closure of `Compute`. */
    method SetStatus(matrixHash: string, status: string)
      requires client.Valid()
      modifies client
      ensures client.Valid()
      ensures client.hashes == Put(old(client.hashes), Write(matrixHash, ProgressField, status))
      ensures client.ttls == old(client.ttls)
    {
      client.Hset(matrixHash, ProgressField, status);
    }

    /** `Compute`: every failure panics and the deferred recovery sets the status "error". */
    method Compute(matrixHash: string)
      requires client.Valid()
      modifies client
      ensures client.Valid()
      ensures client.hashes ==
        PutAll(old(client.hashes), ComputeWrites(env, index, ViaProcess.DumpMatrixToJson, old(client.hashes), matrixHash))
      ensures client.ttls == old(client.ttls)
    {
      var rc := client;
      ghost var h0 := rc.hashes;
      ghost var failed := [Write(matrixHash, ProgressField, "Geoindexing"), Write(matrixHash, ProgressField, "error")];
      PutAllPair(h0, failed[0], failed[1]);
      SetStatus(matrixHash, "Geoindexing");
      StatusKeeps(h0, matrixHash, "Geoindexing", DataField);
      StatusKeeps(h0, matrixHash, "Geoindexing", CountryField);
      var data := rc.Hget(matrixHash, DataField);
      if data.Failure? {
        SetStatus(matrixHash, "error");
        return;
      }
      var coords := env.gob.decode(data.value);
      if coords.None? {
        SetStatus(matrixHash, "error");
        return;
      }
      var country := rc.Hget(matrixHash, CountryField);
      var nodes := index(OrEmpty(country), coords.value);
      if nodes.Failure? {
        SetStatus(matrixHash, "error");
        return;
      }
      assert Completes(env, index, h0, matrixHash);
      StatusKeeps(h0, matrixHash, "Geoindexing", SpeedProfileField);
      Calculate(matrixHash, OrEmpty(country), nodes.value);
      PutAllFour(h0, Write(matrixHash, ProgressField, "Geoindexing"), Write(matrixHash, ProgressField, "computing"),
        Write(matrixHash, ResultField, FirstBraceRepair(EngineOutput(env, index, ViaProcess.DumpMatrixToJson, h0, matrixHash))),
        Write(matrixHash, ProgressField, "complete"));
    }

    /** The "computing" stage of `Compute`. */
    method Calculate(matrixHash: string, country: string, nodes: seq<int>)
      requires client.Valid()
      modifies client
      ensures client.Valid()
      ensures client.hashes == Put(Put(Put(old(client.hashes),
        Write(matrixHash, ProgressField, "computing")),
        Write(matrixHash, ResultField, FirstBraceRepair(env.calcDm(ViaProcess.DumpMatrixToJson(nodes), country,
          Varint.VarintOf(Bytes(FieldOr(old(client.hashes), matrixHash, SpeedProfileField))).value)))),
        Write(matrixHash, ProgressField, "complete"))
      ensures client.ttls == old(client.ttls)
    {
      var rc := client;
      ghost var h0 := rc.hashes;
      SetStatus(matrixHash, "computing");
      StatusKeeps(h0, matrixHash, "computing", SpeedProfileField);
      var jsonData := ViaProcess.DumpMatrixToJson(nodes);
      var speedProfileRaw := rc.Hget(matrixHash, SpeedProfileField);
      var speedProfile := Varint.VarintOf(Bytes(OrEmpty(speedProfileRaw))).value;
      var res := env.calcDm(jsonData, country, speedProfile);
      ghost var raw := res;
      var braceIndex := IndexOf(res, '}');
      if braceIndex == -1 {
        res := res + "}";
      } else if braceIndex != |res| - 1 {
        res := res[..braceIndex + 1];
      }
      assert res == FirstBraceRepair(raw);
      rc.Hset(matrixHash, ResultField, res);
      SetStatus(matrixHash, "complete");
    }
  }
}
