/** matrix.go: the later matrix engine of the main package. Keys are random rather than
    fingerprints, so there is no deduplication and no proxy; the stored data is the node list
    itself; the engine's output is parsed and stored in binary form. */
module ViaMatrix {
  import opened Wrappers
  import opened Hex
  import Varint
  import opened JobStore
  import JobSpec
  import ViaError
  import GeoProcess

  const RatiosHashField := "ratiosHash"

  /** The engine's answer: rows of the distance matrix by name. */
  type Answer = map<string, seq<int>>

  /** What decoding the engine's text into a `map[string][]int` leaves behind: the map as
      the decoder filled it, and whether it reported no error. A syntax error leaves the map
      nil; a value of the wrong type leaves the entries decoded around it, that one at its
      zero value. */
  datatype Decoded = Decoded(answer: Answer, ok: bool)

  /** What this engine leans on but does not compute itself. */
  datatype ViaEngine = ViaEngine(
    /** The gob encoding of a node list. */
    gob: Codec<seq<int>>,
    /** The native call: engine input, country, speed profile, data directory. */
    calcDm: (string, string, int, string) -> string,
    /** The JSON decoding of the engine's answer. */
    parse: string -> Decoded,
    /** The gob encoding of the decoded answer. */
    encodeAnswer: Answer -> Encoded,
    /** `v.DataDir`. */
    dataDir: string)

  /** `CreateMatrixHash`: the hex text of 32 random bytes, which are a parameter here. */
  function CreateMatrixHash(random: seq<byte>): (key: string)
    requires |random| == 32
    ensures |key| == 64 && forall i :: 0 <= i < |key| ==> IsHexChar(key[i])
  {
    EncodeIsHex(random);
    Encode(random)
  }

  /** Distinct random draws give distinct keys; nothing of the request enters the key. */
  lemma KeysFollowDraws(r1: seq<byte>, r2: seq<byte>)
    requires |r1| == 32 && |r2| == 32
    ensures CreateMatrixHash(r1) == CreateMatrixHash(r2) <==> r1 == r2
  {
    if CreateMatrixHash(r1) == CreateMatrixHash(r2) {
      EncodeInjective(r1, r2);
    }
  }

  /** The six fields a creation writes, in order. */
  function CreateWrites(env: ViaEngine, key: string, matrix: seq<int>, ratiosHash: string, country: string,
                        speedProfile: int): seq<Write>
  {
    [Write(key, JobSpec.ProgressField, "initializing"),
     Write(key, JobSpec.ResultField, "0"),
     Write(key, JobSpec.CountryField, country),
     Write(key, RatiosHashField, ratiosHash),
     Write(key, JobSpec.SpeedProfileField, Chars(Varint.PutVarint(speedProfile))),
     Write(key, JobSpec.DataField, env.gob.encode(matrix).bytes)]
  }

  /** `CreateMatrixComputation`: the six fields under the random key, then its TTL. */
  function CreateSpec(env: ViaEngine, s: StoreState, key: string, matrix: seq<int>, ratiosHash: string,
                      country: string, speedProfile: int, expiry: int): StoreState
  {
    ExpireState(StoreState(PutAll(s.hashes, CreateWrites(env, key, matrix, ratiosHash, country, speedProfile)), s.ttls),
      key, expiry)
  }

  /** Every creation makes a record whatever the store holds: the key reads "initializing",
      result "0", the request's country and ratios hash, and the speed profile and nodes
      decode back; its TTL is the expiry; nothing else changes. */
  lemma CreateFields(env: ViaEngine, s: StoreState, key: string, matrix: seq<int>, ratiosHash: string,
                     country: string, speedProfile: int, expiry: int)
    requires WellFormed(s) && expiry > 0
    ensures var r := CreateSpec(env, s, key, matrix, ratiosHash, country, speedProfile, expiry);
      && WellFormed(r)
      && JobSpec.FieldOr(r.hashes, key, JobSpec.ProgressField) == "initializing"
      && JobSpec.FieldOr(r.hashes, key, JobSpec.ResultField) == "0"
      && JobSpec.FieldOr(r.hashes, key, JobSpec.CountryField) == country
      && JobSpec.FieldOr(r.hashes, key, RatiosHashField) == ratiosHash
      && (Varint.IsInt64(speedProfile) ==>
            Varint.VarintOf(Bytes(JobSpec.FieldOr(r.hashes, key, JobSpec.SpeedProfileField))).value == speedProfile)
      && (Lawful(env.gob) && env.gob.encode(matrix).ok ==>
            env.gob.decode(JobSpec.FieldOr(r.hashes, key, JobSpec.DataField)) == Some(matrix))
      && TtlOf(r, key) == expiry
      && (forall k :: k != key ==> TtlOf(r, k) == TtlOf(s, k))
      && (forall k :: k != key && k in s.hashes ==> k in r.hashes && r.hashes[k] == s.hashes[k])
  {
    var ws := CreateWrites(env, key, matrix, ratiosHash, country, speedProfile);
    CreateWritesFirst(env, s.hashes, key, matrix, ratiosHash, country, speedProfile);
    CreateWritesLast(env, s.hashes, key, matrix, ratiosHash, country, speedProfile);
    ExpireAfterWrites(s, ws, key, expiry);
    BytesChars(Varint.PutVarint(speedProfile));
    if Varint.IsInt64(speedProfile) {
      Varint.VarintRoundTrip(speedProfile);
    }
  }

  /** The first three fields a creation writes. */
  lemma CreateWritesFirst(env: ViaEngine, hashes: map<string, Hash>, key: string, matrix: seq<int>, ratiosHash: string,
                          country: string, speedProfile: int)
    ensures var h := PutAll(hashes, CreateWrites(env, key, matrix, ratiosHash, country, speedProfile));
      && JobSpec.FieldOr(h, key, JobSpec.ProgressField) == "initializing"
      && JobSpec.FieldOr(h, key, JobSpec.ResultField) == "0"
      && JobSpec.FieldOr(h, key, JobSpec.CountryField) == country
  {
    var ws := CreateWrites(env, key, matrix, ratiosHash, country, speedProfile);
    FieldWritten(hashes, ws, key, JobSpec.ProgressField, 0);
    FieldWritten(hashes, ws, key, JobSpec.ResultField, 1);
    FieldWritten(hashes, ws, key, JobSpec.CountryField, 2);
  }

  /** The last three fields a creation writes. */
  lemma CreateWritesLast(env: ViaEngine, hashes: map<string, Hash>, key: string, matrix: seq<int>, ratiosHash: string,
                         country: string, speedProfile: int)
    ensures var h := PutAll(hashes, CreateWrites(env, key, matrix, ratiosHash, country, speedProfile));
      && JobSpec.FieldOr(h, key, RatiosHashField) == ratiosHash
      && JobSpec.FieldOr(h, key, JobSpec.SpeedProfileField) == Chars(Varint.PutVarint(speedProfile))
      && JobSpec.FieldOr(h, key, JobSpec.DataField) == env.gob.encode(matrix).bytes
  {
    var ws := CreateWrites(env, key, matrix, ratiosHash, country, speedProfile);
    FieldWritten(hashes, ws, key, RatiosHashField, 3);
    FieldWritten(hashes, ws, key, JobSpec.SpeedProfileField, 4);
    FieldWritten(hashes, ws, key, JobSpec.DataField, 5);
  }

  lemma FieldWritten(hashes: map<string, Hash>, ws: seq<Write>, key: string, field: string, j: nat)
    requires j < |ws| && ws[j].key == key && ws[j].field == field
    requires forall i :: j < i < |ws| ==> ws[i].key != key || ws[i].field != field
    ensures JobSpec.FieldOr(PutAll(hashes, ws), key, field) == ws[j].value
  {
    FieldAfterLastWrite(hashes, ws, key, field, j);
    PutAllField(hashes, ws, key, field);
  }

  /** Why a progress read fails. */
  datatype ProgressError =
    | NotFound(error: ViaError.Error)
    | NotMatrix(message: string)

  /** `GetMatrixComputationProgress`: a missing key is the request error 200; a record
      without progress is not a matrix resource; no `see` pointer is followed. */
  function ProgressSpec(s: StoreState, key: string): (r: Result<string, ProgressError>)
    ensures r.Success? <==> key in s.hashes && JobSpec.ProgressField in s.hashes[key]
    ensures r.Success? ==> r.value == s.hashes[key][JobSpec.ProgressField]
    ensures key !in s.hashes ==>
      r.Failure? && r.error.NotFound? && ViaError.StatusCode(r.error.error) == ViaError.StatusBadRequest
  {
    if key !in s.hashes then
      Failure(NotFound(ViaError.NewRequestError(ViaError.ReqErrMatrixNotFound, "Matrix not found for hash " + key + ".")))
    else if JobSpec.ProgressField !in s.hashes[key] then
      Failure(NotMatrix("The requested " + key + " resource is not a matrix resource."))
    else Success(s.hashes[key][JobSpec.ProgressField])
  }

  /** The stored node list, when it is there and decodes. */
  function StoredNodes(env: ViaEngine, hashes: map<string, Hash>, key: string): Option<seq<int>>
  {
    if key in hashes && JobSpec.DataField in hashes[key] then env.gob.decode(hashes[key][JobSpec.DataField]) else None
  }

  /** The engine's text for a record whose nodes decode. */
  function EngineOutput(env: ViaEngine, hashes: map<string, Hash>, key: string, nodes: seq<int>): string
  {
    env.calcDm(GeoProcess.MatrixToJson(nodes), JobSpec.FieldOr(hashes, key, JobSpec.CountryField),
      Varint.VarintOf(Bytes(JobSpec.FieldOr(hashes, key, JobSpec.SpeedProfileField))).value, env.dataDir)
  }

  /** The writes after the engine ran, as written: "computing", then "error" for an
      unparsable answer and again for a failed encoding, and in every case the encoding of
      whatever the decoder left in the map, and "complete". */
  function CalculateWrites(env: ViaEngine, key: string, out: string): (ws: seq<Write>)
    ensures 3 <= |ws| && ws[0] == Write(key, JobSpec.ProgressField, "computing")
    ensures ws[|ws| - 1] == Write(key, JobSpec.ProgressField, "complete")
    ensures ws[|ws| - 2] == Write(key, JobSpec.ResultField, env.encodeAnswer(env.parse(out).answer).bytes)
    ensures forall i :: 0 < i < |ws| - 2 ==> ws[i] == Write(key, JobSpec.ProgressField, "error")
    ensures |ws| > 3 <==> !env.parse(out).ok || !env.encodeAnswer(env.parse(out).answer).ok
  {
    var enc := env.encodeAnswer(env.parse(out).answer);
    var started := [Write(key, JobSpec.ProgressField, "computing")];
    var parsed := if !env.parse(out).ok then started + [Write(key, JobSpec.ProgressField, "error")] else started;
    var encoded := if !enc.ok then parsed + [Write(key, JobSpec.ProgressField, "error")] else parsed;
    encoded + [Write(key, JobSpec.ResultField, enc.bytes)] + [Write(key, JobSpec.ProgressField, "complete")]
  }

  /** `ComputeMatrix` as written: a failed read or decode panics into "error"; otherwise the
      engine runs and `CalculateWrites` follow. */
  function ComputeWritesAsWritten(env: ViaEngine, hashes: map<string, Hash>, key: string): (ws: seq<Write>)
  {
    match StoredNodes(env, hashes, key)
    case None => [Write(key, JobSpec.ProgressField, "error")]
    case Some(nodes) => CalculateWrites(env, key, EngineOutput(env, hashes, key, nodes))
  }

  /** The "error" status written for an unparsable or unencodable answer does not last: once
      the nodes decode, the record always ends "complete", with a result stored. */
  lemma ParseErrorOverwritten(env: ViaEngine, hashes: map<string, Hash>, key: string)
    requires StoredNodes(env, hashes, key).Some?
    ensures var out := EngineOutput(env, hashes, key, StoredNodes(env, hashes, key).value);
      var ws := ComputeWritesAsWritten(env, hashes, key);
      && ((exists i :: 0 <= i < |ws| && ws[i] == Write(key, JobSpec.ProgressField, "error")) <==>
           (!env.parse(out).ok || !env.encodeAnswer(env.parse(out).answer).ok))
    ensures var after := PutAll(hashes, ComputeWritesAsWritten(env, hashes, key));
      && JobSpec.FieldOr(after, key, JobSpec.ProgressField) == "complete"
      && key in after && JobSpec.ResultField in after[key]
  {
    var out := EngineOutput(env, hashes, key, StoredNodes(env, hashes, key).value);
    var ws := ComputeWritesAsWritten(env, hashes, key);
    var n := |ws|;
    var err := Write(key, JobSpec.ProgressField, "error");
    if !env.parse(out).ok {
      assert ws[1] == err;
    } else if !env.encodeAnswer(env.parse(out).answer).ok {
      assert ws[1] == err;
    } else {
      assert ws == [Write(key, JobSpec.ProgressField, "computing"), ws[1], ws[2]];
      assert ws[1].field == JobSpec.ResultField;
    }
    FieldWritten(hashes, ws, key, JobSpec.ProgressField, n - 1);
    PutAllField(hashes, ws, key, JobSpec.ResultField);
    FieldAfterLastWrite(hashes, ws, key, JobSpec.ResultField, n - 2);
  }

  /** The evident intent: a failed parse or encoding ends the computation at "error", and
      no result is stored. */
  function ComputeWrites(env: ViaEngine, hashes: map<string, Hash>, key: string): (ws: seq<Write>)
    ensures forall i :: 0 <= i < |ws| ==> ws[i].key == key
  {
    match StoredNodes(env, hashes, key)
    case None => [Write(key, JobSpec.ProgressField, "error")]
    case Some(nodes) =>
      var out := EngineOutput(env, hashes, key, nodes);
      var enc := env.encodeAnswer(env.parse(out).answer);
      if !env.parse(out).ok || !enc.ok then
        [Write(key, JobSpec.ProgressField, "computing"), Write(key, JobSpec.ProgressField, "error")]
      else
        [Write(key, JobSpec.ProgressField, "computing"), Write(key, JobSpec.ResultField, enc.bytes),
         Write(key, JobSpec.ProgressField, "complete")]
  }

  /** Whether the intended computation succeeds: the nodes decode, and the engine's answer
      parses and encodes. */
  predicate Succeeds(env: ViaEngine, hashes: map<string, Hash>, key: string)
  {
    match StoredNodes(env, hashes, key)
    case None => false
    case Some(nodes) =>
      var out := EngineOutput(env, hashes, key, nodes);
      env.parse(out).ok && env.encodeAnswer(env.parse(out).answer).ok
  }

  /** Under the intended definition, the record ends "complete" exactly when the computation
      succeeds, and a result is written only then. */
  lemma IntendedOutcome(env: ViaEngine, hashes: map<string, Hash>, key: string)
    ensures var ws := ComputeWrites(env, hashes, key);
      var after := PutAll(hashes, ws);
      && (JobSpec.FieldOr(after, key, JobSpec.ProgressField) == "complete" <==> Succeeds(env, hashes, key))
      && (JobSpec.FieldOr(after, key, JobSpec.ProgressField) == "error" <==> !Succeeds(env, hashes, key))
      && ((exists i :: 0 <= i < |ws| && ws[i].field == JobSpec.ResultField) <==> Succeeds(env, hashes, key))
  {
    var ws := ComputeWrites(env, hashes, key);
    PutAllField(hashes, ws, key, JobSpec.ProgressField);
    if Succeeds(env, hashes, key) {
      assert ws[1].field == JobSpec.ResultField;
    } else {
      assert forall i :: 0 <= i < |ws| ==> ws[i].field == JobSpec.ProgressField;
    }
  }

  /** The Redis connection and configuration of the main package's engine. */
  class Via {
    const client: Store
    const env: ViaEngine
    /** `v.Expiry`. */
    const expiry: int

    constructor (client: Store, env: ViaEngine, expiry: int)
      ensures this.client == client && this.env == env && this.expiry == expiry
    {
      this.client := client;
      this.env := env;
      this.expiry := expiry;
    }

    /** `CreateMatrixComputation`, given the 32 random bytes of the key. */
    method CreateMatrixComputation(matrix: seq<int>, ratiosHash: string, country: string, speedProfile: int,
                                   random: seq<byte>) returns (key: string)
      requires client.Valid() && |random| == 32 && JobSpec.FitsVarintBuffer(speedProfile)
      modifies client
      ensures client.Valid()
      ensures key == CreateMatrixHash(random)
      ensures client.State() == CreateSpec(env, old(client.State()), key, matrix, ratiosHash, country, speedProfile, expiry)
    {
      var c := client;
      var matrixHash := CreateMatrixHash(random);
      ghost var h0 := c.hashes;
      ghost var ws: seq<Write> := [];
      assert c.hashes == PutAll(h0, ws);
      c.Hset(matrixHash, JobSpec.ProgressField, "initializing");
      PutAllSnoc(h0, ws, Write(matrixHash, JobSpec.ProgressField, "initializing"));
      ws := ws + [Write(matrixHash, JobSpec.ProgressField, "initializing")];
      c.Hset(matrixHash, JobSpec.ResultField, "0");
      PutAllSnoc(h0, ws, Write(matrixHash, JobSpec.ResultField, "0"));
      ws := ws + [Write(matrixHash, JobSpec.ResultField, "0")];
      c.Hset(matrixHash, JobSpec.CountryField, country);
      PutAllSnoc(h0, ws, Write(matrixHash, JobSpec.CountryField, country));
      ws := ws + [Write(matrixHash, JobSpec.CountryField, country)];
      c.Hset(matrixHash, RatiosHashField, ratiosHash);
      PutAllSnoc(h0, ws, Write(matrixHash, RatiosHashField, ratiosHash));
      ws := ws + [Write(matrixHash, RatiosHashField, ratiosHash)];
      var bif := Varint.PutVarint(speedProfile);
      c.Hset(matrixHash, JobSpec.SpeedProfileField, Chars(bif));
      PutAllSnoc(h0, ws, Write(matrixHash, JobSpec.SpeedProfileField, Chars(bif)));
      ws := ws + [Write(matrixHash, JobSpec.SpeedProfileField, Chars(bif))];
      var buf := env.gob.encode(matrix);
      c.Hset(matrixHash, JobSpec.DataField, buf.bytes);
      PutAllSnoc(h0, ws, Write(matrixHash, JobSpec.DataField, buf.bytes));
      ws := ws + [Write(matrixHash, JobSpec.DataField, buf.bytes)];
      assert ws == CreateWrites(env, matrixHash, matrix, ratiosHash, country, speedProfile);
      var _ := c.Expire(matrixHash, expiry);
      return matrixHash;
    }

    /** `GetMatrixComputationProgress`. */
    method GetMatrixComputationProgress(matrixHash: string) returns (r: Result<string, ProgressError>)
      ensures r == ProgressSpec(client.State(), matrixHash)
    {
      var c := client;
      var workingHash := matrixHash;
      var present := c.Exists(workingHash);
      if !present {
        return Failure(NotFound(ViaError.NewRequestError(ViaError.ReqErrMatrixNotFound,
          "Matrix not found for hash " + matrixHash + ".")));
      }
      var progress := c.Hget(workingHash, JobSpec.ProgressField);
      if progress.Failure? {
        return Failure(NotMatrix("The requested " + matrixHash + " resource is not a matrix resource."));
      }
      return Success(progress.value);
    }

    /** The `set_status` closure of `ComputeMatrix`. */
    method SetStatus(matrixHash: string, status: string)
      requires client.Valid()
      modifies client
      ensures client.Valid()
      ensures client.hashes == Put(old(client.hashes), Write(matrixHash, JobSpec.ProgressField, status))
      ensures client.ttls == old(client.ttls)
    {
      client.Hset(matrixHash, JobSpec.ProgressField, status);
    }

    /** `ComputeMatrix`, as written: a failed read or decode panics, and the deferred
        recovery sets the status "error". */
    method ComputeMatrix(matrixHash: string)
      requires client.Valid()
      modifies client
      ensures client.Valid()
      ensures client.hashes == PutAll(old(client.hashes), ComputeWritesAsWritten(env, old(client.hashes), matrixHash))
      ensures client.ttls == old(client.ttls)
    {
      var rc := client;
      ghost var h0 := rc.hashes;
      assert [Write(matrixHash, JobSpec.ProgressField, "error")][..0] == [];
      var data := rc.Hget(matrixHash, JobSpec.DataField);
      if data.Failure? {
        SetStatus(matrixHash, "error");
        return;
      }
      var nodes := env.gob.decode(data.value);
      if nodes.None? {
        SetStatus(matrixHash, "error");
        return;
      }
      var country := rc.Hget(matrixHash, JobSpec.CountryField);
      var jsonData := GeoProcess.MatrixToJson(nodes.value);
      var speedProfileRaw := rc.Hget(matrixHash, JobSpec.SpeedProfileField);
      var speedProfile := Varint.VarintOf(Bytes(OrEmpty(speedProfileRaw))).value;
      assert env.calcDm(jsonData, OrEmpty(country), speedProfile, env.dataDir) ==
        EngineOutput(env, h0, matrixHash, nodes.value);
      Calculate(matrixHash, jsonData, OrEmpty(country), speedProfile);
    }

    /** From "computing" to "complete": the engine runs, its answer is parsed and encoded,
        and the encoding is stored whatever happened. */
    method Calculate(matrixHash: string, jsonData: string, country: string, speedProfile: int)
      requires client.Valid()
      modifies client
      ensures client.Valid()
      ensures client.hashes == PutAll(old(client.hashes),
        CalculateWrites(env, matrixHash, env.calcDm(jsonData, country, speedProfile, env.dataDir)))
      ensures client.ttls == old(client.ttls)
    {
      var rc := client;
      ghost var h0 := rc.hashes;
      ghost var ws: seq<Write> := [];
      SetStatus(matrixHash, "computing");
      PutAllSnoc(h0, ws, Write(matrixHash, JobSpec.ProgressField, "computing"));
      ws := ws + [Write(matrixHash, JobSpec.ProgressField, "computing")];
      var res := env.calcDm(jsonData, country, speedProfile, env.dataDir);
      var parsed := env.parse(res);
      if !parsed.ok {
        SetStatus(matrixHash, "error");
        PutAllSnoc(h0, ws, Write(matrixHash, JobSpec.ProgressField, "error"));
        ws := ws + [Write(matrixHash, JobSpec.ProgressField, "error")];
      }
      var matrix := parsed.answer;
      var buf := env.encodeAnswer(matrix);
      if !buf.ok {
        SetStatus(matrixHash, "error");
        PutAllSnoc(h0, ws, Write(matrixHash, JobSpec.ProgressField, "error"));
        ws := ws + [Write(matrixHash, JobSpec.ProgressField, "error")];
      }
      rc.Hset(matrixHash, JobSpec.ResultField, buf.bytes);
      PutAllSnoc(h0, ws, Write(matrixHash, JobSpec.ResultField, buf.bytes));
      ws := ws + [Write(matrixHash, JobSpec.ResultField, buf.bytes)];
      SetStatus(matrixHash, "complete");
      PutAllSnoc(h0, ws, Write(matrixHash, JobSpec.ProgressField, "complete"));
      ws := ws + [Write(matrixHash, JobSpec.ProgressField, "complete")];
      assert ws == CalculateWrites(env, matrixHash, res);
    }
  }
}
