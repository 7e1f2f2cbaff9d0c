/** The computation records of the matrix engine in geo/matrix.go and of its earlier copy in
    spp_server.go: how a request is fingerprinted, which fields a new or proxy record holds,
    how progress is read back, and which writes a computation makes. The classes in
    geo_matrix.dfy and spp_server.dfy are proved against these functions. */
module JobSpec {
  import opened Wrappers
  import opened Text
  import opened Hex
  import Varint
  import opened GeoTypes
  import opened JobStore
  import Geoindexer
  import GeoProcess

  /** SHA-256 of a byte string. */
  type Sha256 = string -> seq<byte>

  /** Every digest is 32 bytes long. */
  ghost predicate DigestWidth(sha: Sha256)
  {
    forall x {:trigger sha(x)} :: |sha(x)| == 32
  }

  /** The idealisation under which different requests get different keys. */
  ghost predicate CollisionFree(sha: Sha256)
  {
    forall x, y {:trigger sha(x), sha(y)} :: sha(x) == sha(y) ==> x == y
  }

  /** What the engine leans on but does not compute itself. */
  datatype Engine = Engine(
    sha: Sha256,
    /** `fmt.Sprint` of a coordinate list. */
    sprint: seq<Coord> -> string,
    /** The gob encoding of a coordinate list. */
    gob: Codec<seq<Coord>>,
    /** The nearest-node query the geoindexer runs. */
    lookup: Geoindexer.NodeLookup,
    /** The native distance-matrix call: engine input, country, speed profile. */
    calcDm: (string, string, int) -> string)

  const ProgressField := "progress"
  const ResultField := "result"
  const CountryField := "country"
  const SpeedProfileField := "speed_profile"
  const DataField := "data"
  const SeeField := "see"

  /** The text `fmt.Sprintf("%s%s%d", …)` the fingerprint hashes. */
  function FingerprintInput(matrixData: string, country: string, speedProfile: int): string
  {
    matrixData + country + IntToDecimal(speedProfile)
  }

  /** `CreateMatrixHash`: the hex-encoded SHA-256 of the fingerprint input. */
  function CreateMatrixHash(sha: Sha256, matrixData: string, country: string, speedProfile: int): (key: string)
    ensures |key| == 2 * |sha(FingerprintInput(matrixData, country, speedProfile))|
    ensures forall i :: 0 <= i < |key| ==> IsHexChar(key[i])
  {
    EncodeIsHex(sha(FingerprintInput(matrixData, country, speedProfile)));
    Encode(sha(FingerprintInput(matrixData, country, speedProfile)))
  }

  /** Requests whose concatenated text agrees share a key, whatever the hash. */
  lemma SameInputSameKey(sha: Sha256, m1: string, c1: string, sp1: int, m2: string, c2: string, sp2: int)
    requires m1 + c1 + IntToDecimal(sp1) == m2 + c2 + IntToDecimal(sp2)
    ensures CreateMatrixHash(sha, m1, c1, sp1) == CreateMatrixHash(sha, m2, c2, sp2)
  {
  }

  /** There is no separator between the parts: shifting text from the matrix to the
      country gives the same key. */
  lemma NoSeparator(sha: Sha256)
    ensures CreateMatrixHash(sha, "ab", "c", 1) == CreateMatrixHash(sha, "a", "bc", 1)
  {
    SameInputSameKey(sha, "ab", "c", 1, "a", "bc", 1);
  }

  /** With a collision-free hash, keys are equal exactly when the fingerprint inputs are. */
  lemma KeyDeterminesInput(sha: Sha256, m1: string, c1: string, sp1: int, m2: string, c2: string, sp2: int)
    requires CollisionFree(sha)
    ensures CreateMatrixHash(sha, m1, c1, sp1) == CreateMatrixHash(sha, m2, c2, sp2) <==>
      FingerprintInput(m1, c1, sp1) == FingerprintInput(m2, c2, sp2)
  {
    if CreateMatrixHash(sha, m1, c1, sp1) == CreateMatrixHash(sha, m2, c2, sp2) {
      EncodeInjective(sha(FingerprintInput(m1, c1, sp1)), sha(FingerprintInput(m2, c2, sp2)));
    }
  }

  /** The pairs of the hash tests: a different country, or a different speed profile,
      gives a different key. */
  lemma TestedPairsDiffer(sha: Sha256)
    requires CollisionFree(sha)
    ensures CreateMatrixHash(sha, "foo", "finland", 40) != CreateMatrixHash(sha, "foo", "germany", 40)
    ensures CreateMatrixHash(sha, "foo", "germany", 40) != CreateMatrixHash(sha, "foo", "germany", 60)
  {
    KeyDeterminesInput(sha, "foo", "finland", 40, "foo", "germany", 40);
    KeyDeterminesInput(sha, "foo", "germany", 40, "foo", "germany", 60);
    assert FingerprintInput("foo", "finland", 40)[3] != FingerprintInput("foo", "germany", 40)[3];
    assert IntToDecimal(40)[0] == '4' && IntToDecimal(60)[0] == '6';
    assert FingerprintInput("foo", "germany", 40)[10] != FingerprintInput("foo", "germany", 60)[10];
  }

  /** The proxy key as the code computes it: the primary key followed by `string(now)`, a
      Go integer-to-character conversion of the nanosecond clock. */
  function ProxyKeyAsWritten(sha: Sha256, primary: string, stamp: int, country: string, speedProfile: int): string
  {
    CreateMatrixHash(sha, primary + RuneString(stamp), country, speedProfile)
  }

  /** Every nanosecond clock reading after 1970-01-01T00:00:00.001114112Z is beyond the
      last Unicode code point, so two such readings give the same proxy key. */
  lemma ProxyKeyCollision(sha: Sha256, primary: string, t1: int, t2: int, country: string, speedProfile: int)
    requires t1 >= 0x11_0000 && t2 >= 0x11_0000
    ensures ProxyKeyAsWritten(sha, primary, t1, country, speedProfile) ==
      ProxyKeyAsWritten(sha, primary, t2, country, speedProfile)
  {
  }

  /** The evident intent, "perturb the hash for uniqueness": the decimal clock reading. */
  function ProxyKey(sha: Sha256, primary: string, stamp: int, country: string, speedProfile: int): string
  {
    CreateMatrixHash(sha, primary + IntToDecimal(stamp), country, speedProfile)
  }

  /** With the decimal rendering, distinct clock readings give distinct proxy keys. */
  lemma ProxyKeyUnique(sha: Sha256, primary: string, t1: int, t2: int, country: string, speedProfile: int)
    requires CollisionFree(sha) && t1 != t2
    ensures ProxyKey(sha, primary, t1, country, speedProfile) != ProxyKey(sha, primary, t2, country, speedProfile)
  {
    var sp := IntToDecimal(speedProfile);
    var x1 := FingerprintInput(primary + IntToDecimal(t1), country, speedProfile);
    var x2 := FingerprintInput(primary + IntToDecimal(t2), country, speedProfile);
    KeyDeterminesInput(sha, primary + IntToDecimal(t1), country, speedProfile, primary + IntToDecimal(t2), country, speedProfile);
    if x1 == x2 {
      var d1, d2 := IntToDecimal(t1), IntToDecimal(t2);
      SuffixCancel(primary + d1 + country, primary + d2 + country, sp);
      SuffixCancel(primary + d1, primary + d2, country);
      AppendCancel(primary, d1, d2);
      IntDecimalInjective(t1, t2);
    }
  }
  /** `fmt.Sprint` renders a slice between brackets. */
  ghost predicate SprintBracketed(sprint: seq<Coord> -> string)
  {
    forall m {:trigger sprint(m)} :: |sprint(m)| > 0 && sprint(m)[0] == '['
  }

  /** The varint buffer of the code is 8 bytes long: the speed profile must fit in it. */
  predicate FitsVarintBuffer(speedProfile: int)
  {
    -0x80_0000_0000_0000 <= speedProfile < 0x80_0000_0000_0000
  }

  lemma PutAllStep(hashes: map<string, Hash>, ws: seq<Write>, i: nat)
    requires i < |ws|
    ensures PutAll(hashes, ws[..i + 1]) == Put(PutAll(hashes, ws[..i]), ws[i])
  {
    assert ws[..i + 1][..i] == ws[..i];
  }

  /** The fields of a new record, in the order they are written. */
  function NewRecordWrites(env: Engine, key: string, matrix: seq<Coord>, country: string, speedProfile: int): seq<Write>
  {
    [Write(key, ProgressField, "initializing"),
     Write(key, ResultField, "0"),
     Write(key, CountryField, country),
     Write(key, SpeedProfileField, Chars(Varint.PutVarint(speedProfile))),
     Write(key, DataField, env.gob.encode(matrix).bytes)]
  }

  /** The hash of a new record: exactly the five fields written. */
  function NewRecord(env: Engine, matrix: seq<Coord>, country: string, speedProfile: int): Hash
  {
    map[ProgressField := "initializing", ResultField := "0", CountryField := country,
        SpeedProfileField := Chars(Varint.PutVarint(speedProfile)),
        DataField := env.gob.encode(matrix).bytes]
  }

  /** The store after a creation, the key returned and whether it is a proxy. */
  datatype Created = Created(state: StoreState, key: string, proxy: bool)

  /** `CreateMatrixComputation`: a request whose fingerprint is already a key gets a proxy
      record pointing at it, with the primary's TTL; otherwise a new record with the
      given expiry. */
  function CreateSpec(env: Engine, s: StoreState, matrix: seq<Coord>, country: string, speedProfile: int,
                      stamp: int, expiry: int): Created
  {
    var key := CreateMatrixHash(env.sha, env.sprint(matrix), country, speedProfile);
    if key in s.hashes then
      var newKey := ProxyKeyAsWritten(env.sha, key, stamp, country, speedProfile);
      var linked := StoreState(Put(s.hashes, Write(newKey, SeeField, key)), s.ttls);
      Created(ExpireState(linked, newKey, TtlOf(linked, key)), newKey, true)
    else
      var filled := StoreState(PutAll(s.hashes, NewRecordWrites(env, key, matrix, country, speedProfile)), s.ttls);
      Created(ExpireState(filled, key, expiry), key, false)
  }

  /** One more write to a key whose hash, after the earlier writes, is `h`. */
  lemma PutAllGrows(hashes: map<string, Hash>, ws: seq<Write>, i: nat, key: string, h: Hash)
    requires i < |ws| && ws[i].key == key
    requires PutAll(hashes, ws[..i]) == hashes[key := h]
    ensures PutAll(hashes, ws[..i + 1]) == hashes[key := h[ws[i].field := ws[i].value]]
  {
    PutAllStep(hashes, ws, i);
  }

  /** Five HSETs in a row are the run of five writes. */
  lemma RecordWrites(hashes: map<string, Hash>, ws: seq<Write>)
    requires |ws| == 5
    ensures PutAll(hashes, ws) == Put(Put(Put(Put(Put(hashes, ws[0]), ws[1]), ws[2]), ws[3]), ws[4])
  {
    var m1 := Put(hashes, ws[0]);
    var m2 := Put(m1, ws[1]);
    var m3 := Put(m2, ws[2]);
    var m4 := Put(m3, ws[3]);
    assert PutAll(hashes, ws[..1]) == m1 by {
      PutAllStep(hashes, ws, 0);
      assert ws[..0] == [];
    }
    assert PutAll(hashes, ws[..2]) == m2 by {
      PutAllStep(hashes, ws, 1);
    }
    assert PutAll(hashes, ws[..3]) == m3 by {
      PutAllStep(hashes, ws, 2);
    }
    assert PutAll(hashes, ws[..4]) == m4 by {
      PutAllStep(hashes, ws, 3);
    }
    PutAllStep(hashes, ws, 4);
    assert ws[..5] == ws;
  }

  lemma NewRecordWritten(env: Engine, hashes: map<string, Hash>, key: string, matrix: seq<Coord>, country: string, speedProfile: int)
    requires key !in hashes
    ensures PutAll(hashes, NewRecordWrites(env, key, matrix, country, speedProfile)) ==
      hashes[key := NewRecord(env, matrix, country, speedProfile)]
  {
    FiveWritesToNewKey(hashes, NewRecordWrites(env, key, matrix, country, speedProfile), key);
  }

  /** Five writes to a key that is not there yet make its hash from those five fields. */
  lemma FiveWritesToNewKey(hashes: map<string, Hash>, ws: seq<Write>, key: string)
    requires key !in hashes && |ws| == 5
    requires forall i :: 0 <= i < 5 ==> ws[i].key == key
    ensures PutAll(hashes, ws) == hashes[key := map[ws[0].field := ws[0].value, ws[1].field := ws[1].value,
      ws[2].field := ws[2].value, ws[3].field := ws[3].value, ws[4].field := ws[4].value]]
  {
    var r1: Hash := map[ws[0].field := ws[0].value];
    var r2 := r1[ws[1].field := ws[1].value];
    var r3 := r2[ws[2].field := ws[2].value];
    var r4 := r3[ws[3].field := ws[3].value];
    assert PutAll(hashes, ws[..1]) == hashes[key := r1] by {
      PutAllStep(hashes, ws, 0);
      assert ws[..0] == [];
    }
    PutAllGrows(hashes, ws, 1, key, r1);
    PutAllGrows(hashes, ws, 2, key, r2);
    PutAllGrows(hashes, ws, 3, key, r3);
    PutAllGrows(hashes, ws, 4, key, r4);
    assert ws[..5] == ws;
  }

  /** A request whose fingerprint is not yet a key creates exactly the new record under the
      fingerprint, with TTL `expiry`; no other key changes. The stored speed profile and
      coordinates decode back to the request's. */
  lemma CreateNew(env: Engine, s: StoreState, matrix: seq<Coord>, country: string, speedProfile: int, stamp: int, expiry: int)
    requires WellFormed(s) && expiry > 0
    requires CreateMatrixHash(env.sha, env.sprint(matrix), country, speedProfile) !in s.hashes
    ensures var c := CreateSpec(env, s, matrix, country, speedProfile, stamp, expiry);
      && !c.proxy
      && c.key == CreateMatrixHash(env.sha, env.sprint(matrix), country, speedProfile)
      && c.state.hashes == s.hashes[c.key := NewRecord(env, matrix, country, speedProfile)]
      && TtlOf(c.state, c.key) == expiry
      && (forall k :: k != c.key ==> TtlOf(c.state, k) == TtlOf(s, k))
      && WellFormed(c.state)
    ensures Varint.IsInt64(speedProfile) ==>
      Varint.VarintOf(Bytes(NewRecord(env, matrix, country, speedProfile)[SpeedProfileField])).value == speedProfile
    ensures Lawful(env.gob) && env.gob.encode(matrix).ok ==>
      env.gob.decode(NewRecord(env, matrix, country, speedProfile)[DataField]) == Some(matrix)
  {
    var key := CreateMatrixHash(env.sha, env.sprint(matrix), country, speedProfile);
    NewRecordWritten(env, s.hashes, key, matrix, country, speedProfile);
    BytesChars(Varint.PutVarint(speedProfile));
    if Varint.IsInt64(speedProfile) {
      Varint.VarintRoundTrip(speedProfile);
    }
  }

  /** A request whose fingerprint is a key gets a proxy key whose record points at the
      primary through `see` and expires with it; the primary and every other key are left as
      they were. */
  lemma CreateProxy(env: Engine, s: StoreState, matrix: seq<Coord>, country: string, speedProfile: int, stamp: int, expiry: int)
    requires WellFormed(s)
    requires CreateMatrixHash(env.sha, env.sprint(matrix), country, speedProfile) in s.hashes
    requires TtlOf(s, CreateMatrixHash(env.sha, env.sprint(matrix), country, speedProfile)) > 0
    requires ProxyKeyAsWritten(env.sha, CreateMatrixHash(env.sha, env.sprint(matrix), country, speedProfile),
      stamp, country, speedProfile) != CreateMatrixHash(env.sha, env.sprint(matrix), country, speedProfile)
    ensures var primary := CreateMatrixHash(env.sha, env.sprint(matrix), country, speedProfile);
      var c := CreateSpec(env, s, matrix, country, speedProfile, stamp, expiry);
      && c.proxy
      && c.key == ProxyKeyAsWritten(env.sha, primary, stamp, country, speedProfile)
      && c.key in c.state.hashes && c.state.hashes[c.key][SeeField] == primary
      && TtlOf(c.state, c.key) == TtlOf(s, primary)
      && (forall k :: k != c.key && k in s.hashes ==> k in c.state.hashes && c.state.hashes[k] == s.hashes[k])
      && (forall k :: k != c.key ==> TtlOf(c.state, k) == TtlOf(s, k))
      && c.state.hashes.Keys == s.hashes.Keys + {c.key}
      && WellFormed(c.state)
  {
  }

  /** SHA-256 keeps two given texts apart: the hash's promise, asked of one pair only. */
  ghost predicate NoCollisionOn(sha: Sha256, x: string, y: string)
  {
    sha(x) == sha(y) ==> x == y
  }

  /** The text hashed for the primary key of a request. */
  function PrimaryInput(env: Engine, matrix: seq<Coord>, country: string, speedProfile: int): string
  {
    FingerprintInput(env.sprint(matrix), country, speedProfile)
  }

  /** The text hashed for a proxy key of the same request. */
  function ProxyInput(env: Engine, matrix: seq<Coord>, country: string, speedProfile: int, stamp: int): string
  {
    var primary := CreateMatrixHash(env.sha, env.sprint(matrix), country, speedProfile);
    FingerprintInput(primary + RuneString(stamp), country, speedProfile)
  }

  /** What the repeated-creation lemmas assume of the hash: 32-byte digests, `fmt.Sprint`
      output that starts with `[`, and no collision between the two texts hashed. */
  ghost predicate ProxyHashing(env: Engine, matrix: seq<Coord>, country: string, speedProfile: int, stamp: int)
  {
    && DigestWidth(env.sha) && SprintBracketed(env.sprint)
    && NoCollisionOn(env.sha, PrimaryInput(env, matrix, country, speedProfile),
                     ProxyInput(env, matrix, country, speedProfile, stamp))
  }

  /** The two texts hashed always differ: the first starts with `[`, the second with a hex
      digit of the primary key. */
  lemma ProxyInputDiffers(env: Engine, matrix: seq<Coord>, country: string, speedProfile: int, stamp: int)
    requires DigestWidth(env.sha) && SprintBracketed(env.sprint)
    ensures PrimaryInput(env, matrix, country, speedProfile) != ProxyInput(env, matrix, country, speedProfile, stamp)
  {
    var primary := CreateMatrixHash(env.sha, env.sprint(matrix), country, speedProfile);
    var m := env.sprint(matrix);
    assert |env.sha(FingerprintInput(m, country, speedProfile))| == 32;
    assert PrimaryInput(env, matrix, country, speedProfile)[0] == m[0] == '[';
    assert ProxyInput(env, matrix, country, speedProfile, stamp)[0] == primary[0];
    assert IsHexChar(primary[0]);
  }

  /** Hence the fingerprint of a request and the proxy key derived from it differ. */
  lemma ProxyKeyDiffers(env: Engine, matrix: seq<Coord>, country: string, speedProfile: int, stamp: int)
    requires ProxyHashing(env, matrix, country, speedProfile, stamp)
    ensures var primary := CreateMatrixHash(env.sha, env.sprint(matrix), country, speedProfile);
      ProxyKeyAsWritten(env.sha, primary, stamp, country, speedProfile) != primary
  {
    var primary := CreateMatrixHash(env.sha, env.sprint(matrix), country, speedProfile);
    ProxyInputDiffers(env, matrix, country, speedProfile, stamp);
    if ProxyKeyAsWritten(env.sha, primary, stamp, country, speedProfile) == primary {
      EncodeInjective(env.sha(ProxyInput(env, matrix, country, speedProfile, stamp)),
                      env.sha(PrimaryInput(env, matrix, country, speedProfile)));
    }
  }

  /** Creating the same request twice, from a store without it: the first call creates a new
      record, the second a proxy under a different key, and both keys expire together. */
  lemma DuplicateCreate(env: Engine, s: StoreState, matrix: seq<Coord>, country: string, speedProfile: int,
                        t1: int, t2: int, expiry: int)
    requires WellFormed(s) && expiry > 0
    requires ProxyHashing(env, matrix, country, speedProfile, t2)
    requires CreateMatrixHash(env.sha, env.sprint(matrix), country, speedProfile) !in s.hashes
    ensures var first := CreateSpec(env, s, matrix, country, speedProfile, t1, expiry);
      var second := CreateSpec(env, first.state, matrix, country, speedProfile, t2, expiry);
      && !first.proxy && second.proxy
      && first.key != second.key
      && TtlOf(second.state, first.key) == TtlOf(second.state, second.key) == expiry
  {
    var first := CreateSpec(env, s, matrix, country, speedProfile, t1, expiry);
    CreateNew(env, s, matrix, country, speedProfile, t1, expiry);
    ProxyKeyDiffers(env, matrix, country, speedProfile, t2);
    CreateProxy(env, first.state, matrix, country, speedProfile, t2, expiry);
  }

  /** The value of a field, or Go's empty byte slice when the read fails. */
  function FieldOr(hashes: map<string, Hash>, key: string, field: string): string
  {
    if key in hashes && field in hashes[key] then hashes[key][field] else ""
  }

  /** `GetMatrixComputationProgress`: fails only for a missing key; follows at most one
      `see` pointer; a failed progress read gives the empty string. */
  function ProgressSpec(s: StoreState, key: string): (r: Result<string, string>)
    ensures r.Failure? <==> key !in s.hashes
    ensures r.Failure? ==> r.error == "no matrix found for hash " + key
  {
    if key !in s.hashes then Failure("no matrix found for hash " + key)
    else
      var working := if SeeField in s.hashes[key] then s.hashes[key][SeeField] else key;
      Success(FieldOr(s.hashes, working, ProgressField))
  }

  /** The progress of a proxy is the progress field of the record it points at, read once:
      a pointer stored there is not followed, and a vanished target reads as "". */
  lemma ProxyProgress(s: StoreState, key: string, primary: string)
    requires key in s.hashes && SeeField in s.hashes[key] && s.hashes[key][SeeField] == primary
    ensures ProgressSpec(s, key) == Success(FieldOr(s.hashes, primary, ProgressField))
    ensures primary !in s.hashes ==> ProgressSpec(s, key) == Success("")
  {
  }

  /** Right after creation, the new key and a proxy of it both read "initializing". */
  lemma CreatedProgress(env: Engine, s: StoreState, matrix: seq<Coord>, country: string, speedProfile: int,
                        t1: int, t2: int, expiry: int)
    requires WellFormed(s) && expiry > 0
    requires ProxyHashing(env, matrix, country, speedProfile, t2)
    requires CreateMatrixHash(env.sha, env.sprint(matrix), country, speedProfile) !in s.hashes
    ensures var first := CreateSpec(env, s, matrix, country, speedProfile, t1, expiry);
      var second := CreateSpec(env, first.state, matrix, country, speedProfile, t2, expiry);
      && ProgressSpec(first.state, first.key) == Success("initializing")
      && ProgressSpec(second.state, second.key) == Success("initializing")
  {
    var first := CreateSpec(env, s, matrix, country, speedProfile, t1, expiry);
    CreateNew(env, s, matrix, country, speedProfile, t1, expiry);
    NewRecordProgress(env, s.hashes, first.key, matrix, country, speedProfile);
    assert FieldOr(first.state.hashes, first.key, ProgressField) == "initializing";
    ProxyCreatedProgress(env, first.state, matrix, country, speedProfile, t2, expiry);
  }

  /** A proxy created for a live record reads that record's progress. */
  lemma ProxyCreatedProgress(env: Engine, s: StoreState, matrix: seq<Coord>, country: string, speedProfile: int,
                             stamp: int, expiry: int)
    requires WellFormed(s)
    requires ProxyHashing(env, matrix, country, speedProfile, stamp)
    requires var primary := CreateMatrixHash(env.sha, env.sprint(matrix), country, speedProfile);
      primary in s.hashes && TtlOf(s, primary) > 0
    ensures var primary := CreateMatrixHash(env.sha, env.sprint(matrix), country, speedProfile);
      var c := CreateSpec(env, s, matrix, country, speedProfile, stamp, expiry);
      ProgressSpec(c.state, c.key) == Success(FieldOr(s.hashes, primary, ProgressField))
  {
    var primary := CreateMatrixHash(env.sha, env.sprint(matrix), country, speedProfile);
    ProxyKeyDiffers(env, matrix, country, speedProfile, stamp);
    CreateProxy(env, s, matrix, country, speedProfile, stamp, expiry);
    var c := CreateSpec(env, s, matrix, country, speedProfile, stamp, expiry);
    ProxyProgress(c.state, c.key, primary);
  }

  lemma NewRecordProgress(env: Engine, hashes: map<string, Hash>, key: string, matrix: seq<Coord>, country: string, speedProfile: int)
    ensures var s := StoreState(hashes[key := NewRecord(env, matrix, country, speedProfile)], map[]);
      ProgressSpec(s, key) == Success("initializing")
  {
    assert SeeField !in NewRecord(env, matrix, country, speedProfile);
  }

  /** The brace repair of `ComputeMatrix`: an output without `}` gets one appended; one whose
      first `}` is not its last character is cut just after that first `}`. */
  function FirstBraceRepair(res: string): (out: string)
    ensures |out| > 0 && out[|out| - 1] == '}'
    ensures '}' !in res ==> out == res + "}"
    ensures '}' in res ==> out <= res && '}' !in out[..|out| - 1]
  {
    var first := IndexOf(res, '}');
    if first == -1 then res + "}"
    else if first != |res| - 1 then res[..first + 1]
    else res
  }

  /** Repairing a repaired output changes nothing. */
  lemma FirstBraceRepairIdempotent(res: string)
    ensures FirstBraceRepair(FirstBraceRepair(res)) == FirstBraceRepair(res)
  {
    var once := FirstBraceRepair(res);
    assert once == once[..|once| - 1] + [once[|once| - 1]];
    assert IndexOf(once, '}') == |once| - 1;
  }

  /** On an output holding a single `}`, cutting after the first brace and cutting after the
      last one (`CleanCppMessage`) agree. */
  lemma RepairsAgreeOnOneBrace(res: string, i: nat)
    requires i < |res| && res[i] == '}' && '}' !in res[..i] && '}' !in res[i + 1..]
    ensures FirstBraceRepair(res) == GeoProcess.CleanCppMessage(res) == res[..i + 1]
  {
    assert IndexOf(res, '}') == i;
    assert LastIndexOf(res, '}') == i;
  }

  /** The nodes of a coordinate list in a country, or the indexer's error. */
  type Indexer = (string, seq<Coord>) -> Result<seq<int>, string>

  /** The indexing `ComputeMatrix` does in geo/geoindex.go: four connections. */
  function GeoIndexer(lookup: Geoindexer.NodeLookup): Indexer
  {
    (country: string, coords: seq<Coord>) =>
      Geoindexer.Recombined(lookup, country, Geoindexer.Chunks(coords, 4))
  }

  /** Whether a computation over the record under `key` runs to the end: the coordinates are
      stored and decode, and indexing succeeds. Any other outcome is a panic, recovered as
      status "error". */
  predicate Completes(env: Engine, index: Indexer, hashes: map<string, Hash>, key: string)
  {
    && key in hashes && DataField in hashes[key]
    && env.gob.decode(hashes[key][DataField]).Some?
    && index(FieldOr(hashes, key, CountryField), env.gob.decode(hashes[key][DataField]).value).Success?
  }

  /** The engine's answer for a record that completes, before repair. */
  function EngineOutput(env: Engine, index: Indexer, toJson: seq<int> -> string, hashes: map<string, Hash>, key: string): string
    requires Completes(env, index, hashes, key)
  {
    var country := FieldOr(hashes, key, CountryField);
    var nodes := index(country, env.gob.decode(hashes[key][DataField]).value).value;
    var sp := Varint.VarintOf(Bytes(FieldOr(hashes, key, SpeedProfileField))).value;
    env.calcDm(toJson(nodes), country, sp)
  }

  /** `ComputeMatrix` as a run of HSETs on `key`: "Geoindexing", then either "error", or
      "computing", the repaired engine output as the result, and "complete". */
  function ComputeWrites(env: Engine, index: Indexer, toJson: seq<int> -> string, hashes: map<string, Hash>, key: string)
    : (ws: seq<Write>)
    ensures 2 <= |ws| && ws[0] == Write(key, ProgressField, "Geoindexing")
    ensures forall i :: 0 <= i < |ws| ==> ws[i].key == key
  {
    var start := Write(key, ProgressField, "Geoindexing");
    if Completes(env, index, hashes, key) then
      [start, Write(key, ProgressField, "computing"),
       Write(key, ResultField, FirstBraceRepair(EngineOutput(env, index, toJson, hashes, key))),
       Write(key, ProgressField, "complete")]
    else [start, Write(key, ProgressField, "error")]
  }

  /** A status write leaves every other field of the record readable as before. */
  lemma StatusKeeps(hashes: map<string, Hash>, key: string, status: string, field: string)
    requires field != ProgressField
    ensures var h := Put(hashes, Write(key, ProgressField, status));
      && key in h
      && (field in h[key] <==> key in hashes && field in hashes[key])
      && FieldOr(h, key, field) == FieldOr(hashes, key, field)
  {
  }

  /** The progress field ends at "complete" exactly when the computation completes and at
      "error" otherwise; the result field is written only on completion, and then ends with
      `}`; the TTLs and every other record are as they were. */
  lemma ComputeOutcome(env: Engine, index: Indexer, toJson: seq<int> -> string, s: StoreState, key: string)
    ensures var after := PutAll(s.hashes, ComputeWrites(env, index, toJson, s.hashes, key));
      && key in after && ProgressField in after[key]
      && (after[key][ProgressField] == "complete" <==> Completes(env, index, s.hashes, key))
      && (after[key][ProgressField] == "error" <==> !Completes(env, index, s.hashes, key))
      && (Completes(env, index, s.hashes, key) ==>
            ResultField in after[key] &&
            after[key][ResultField] == FirstBraceRepair(EngineOutput(env, index, toJson, s.hashes, key)))
      && (!Completes(env, index, s.hashes, key) ==>
            FieldAfter(s.hashes, [], key, ResultField) == FieldAfter(after, [], key, ResultField))
      && after.Keys == s.hashes.Keys + {key}
      && (forall k :: k in s.hashes && k != key ==> after[k] == s.hashes[k])
  {
    var ws := ComputeWrites(env, index, toJson, s.hashes, key);
    PutAllField(s.hashes, ws, key, ProgressField);
    PutAllField(s.hashes, ws, key, ResultField);
    PutAllOtherKeys(s.hashes, ws, key);
    var after := PutAll(s.hashes, ws);
    assert FieldAfter(after, [], key, ResultField) == FieldAfter(s.hashes, ws, key, ResultField) by {
      PutAllField(s.hashes, ws, key, ResultField);
    }
  }

  /** A computation started on a key that is not in the store creates a record holding only
      progress "error", with no TTL. */
  lemma ComputeMissingKey(env: Engine, index: Indexer, toJson: seq<int> -> string, s: StoreState, key: string)
    requires WellFormed(s) && key !in s.hashes
    ensures var after := StoreState(PutAll(s.hashes, ComputeWrites(env, index, toJson, s.hashes, key)), s.ttls);
      && after.hashes[key] == map[ProgressField := "error"]
      && TtlOf(after, key) == -1
  {
    var ws := ComputeWrites(env, index, toJson, s.hashes, key);
    assert ws == [Write(key, ProgressField, "Geoindexing"), Write(key, ProgressField, "error")];
    PutAllStep(s.hashes, ws, 0);
    PutAllStep(s.hashes, ws, 1);
    assert ws[..0] == [] && ws[..2] == ws;
  }

  /** A request created afresh and then computed, with a lawful gob codec that could encode
      its coordinates, a 64-bit speed profile and an indexer that succeeds on them, ends
      "complete" with the repaired engine output for exactly the request's nodes, country and
      speed profile. */
  lemma CreateThenCompute(env: Engine, index: Indexer, toJson: seq<int> -> string, s: StoreState,
                          matrix: seq<Coord>, country: string, speedProfile: int, stamp: int, expiry: int)
    requires WellFormed(s) && expiry > 0
    requires CreateMatrixHash(env.sha, env.sprint(matrix), country, speedProfile) !in s.hashes
    requires Lawful(env.gob) && env.gob.encode(matrix).ok && Varint.IsInt64(speedProfile)
    requires index(country, matrix).Success?
    ensures var c := CreateSpec(env, s, matrix, country, speedProfile, stamp, expiry);
      var after := PutAll(c.state.hashes, ComputeWrites(env, index, toJson, c.state.hashes, c.key));
      && c.key in after && ProgressField in after[c.key] && ResultField in after[c.key]
      && after[c.key][ProgressField] == "complete"
      && after[c.key][ResultField] ==
           FirstBraceRepair(env.calcDm(toJson(index(country, matrix).value), country, speedProfile))
  {
    var c := CreateSpec(env, s, matrix, country, speedProfile, stamp, expiry);
    CreateNew(env, s, matrix, country, speedProfile, stamp, expiry);
    assert c.state.hashes[c.key] == NewRecord(env, matrix, country, speedProfile);
    assert FieldOr(c.state.hashes, c.key, CountryField) == country;
    assert Completes(env, index, c.state.hashes, c.key);
    ComputeOutcome(env, index, toJson, c.state, c.key);
  }

  /** With the geoindexer of geo/geoindex.go, the engine sees the nearest node of every
      coordinate, in order, when every coordinate has one. */
  lemma GeoCreateThenCompute(env: Engine, s: StoreState, matrix: seq<Coord>, country: string, speedProfile: int,
                             stamp: int, expiry: int)
    requires WellFormed(s) && expiry > 0
    requires CreateMatrixHash(env.sha, env.sprint(matrix), country, speedProfile) !in s.hashes
    requires Lawful(env.gob) && env.gob.encode(matrix).ok && Varint.IsInt64(speedProfile)
    requires Geoindexer.AllFound(env.lookup, country, matrix)
    ensures var c := CreateSpec(env, s, matrix, country, speedProfile, stamp, expiry);
      var after := PutAll(c.state.hashes, ComputeWrites(env, GeoIndexer(env.lookup), GeoProcess.MatrixToJson, c.state.hashes, c.key));
      && c.key in after && ProgressField in after[c.key] && ResultField in after[c.key]
      && after[c.key][ProgressField] == "complete"
      && after[c.key][ResultField] == FirstBraceRepair(env.calcDm(
           GeoProcess.MatrixToJson(Geoindexer.Ids(env.lookup, country, matrix)), country, speedProfile))
  {
    Geoindexer.IndexedSpec(env.lookup, country, matrix, 4);
    CreateThenCompute(env, GeoIndexer(env.lookup), GeoProcess.MatrixToJson, s, matrix, country, speedProfile, stamp, expiry);
  }
}
