/** The Redis hash store the computation records live in, as seen through the client
    calls the core makes: EXISTS, HSET, HGET, HEXISTS, TTL, EXPIRE. Time does not pass in
    the model: a TTL is the number of seconds last set on a key. */
module JobStore {
  import opened Wrappers

  /** The fields of one Redis hash. */
  type Hash = map<string, string>

  /** The abstract value of the store: every hash by key, and the TTL of the keys that have one. */
  datatype StoreState = StoreState(hashes: map<string, Hash>, ttls: map<string, int>)

  /** One HSET. */
  datatype Write = Write(key: string, field: string, value: string)

  const KeyMissing := "Key does not exist "

  ghost predicate WellFormed(s: StoreState)
  {
    s.ttls.Keys <= s.hashes.Keys && forall k :: k in s.ttls ==> s.ttls[k] > 0
  }

  /** HSET: the field is set, the hash being created when the key is new. */
  function Put(hashes: map<string, Hash>, w: Write): map<string, Hash>
  {
    var h := if w.key in hashes then hashes[w.key] else map[];
    hashes[w.key := h[w.field := w.value]]
  }

  /** A sequence of HSETs applied in order. */
  function PutAll(hashes: map<string, Hash>, ws: seq<Write>): (r: map<string, Hash>)
    ensures hashes.Keys <= r.Keys
    ensures forall i :: 0 <= i < |ws| ==> ws[i].key in r
    decreases |ws|
  {
    if ws == [] then hashes else Put(PutAll(hashes, ws[..|ws| - 1]), ws[|ws| - 1])
  }

  lemma PutAllSnoc(hashes: map<string, Hash>, ws: seq<Write>, w: Write)
    ensures PutAll(hashes, ws + [w]) == Put(PutAll(hashes, ws), w)
  {
    assert (ws + [w])[..|ws|] == ws;
  }

  lemma PutAllPair(hashes: map<string, Hash>, a: Write, b: Write)
    ensures PutAll(hashes, [a, b]) == Put(Put(hashes, a), b)
  {
    assert [a, b][..1] == [a];
    assert [a][..0] == [];
    assert PutAll(hashes, [a]) == Put(hashes, a);
  }

  lemma PutAllFour(hashes: map<string, Hash>, a: Write, b: Write, c: Write, d: Write)
    ensures PutAll(hashes, [a, b, c, d]) == Put(Put(Put(Put(hashes, a), b), c), d)
  {
    assert [a, b, c, d][..3] == [a, b, c];
    assert [a, b, c][..2] == [a, b];
    PutAllPair(hashes, a, b);
  }

  /** What the code reads from an HGET whose error it ignores: the value, or the empty byte
      slice. */
  function OrEmpty(r: Result<string, string>): string
  {
    if r.Success? then r.value else ""
  }

  /** A run of writes to one key followed by an EXPIRE of that key: the hashes are the
      writes' result, the key has the TTL, and every other key keeps its hash and TTL. */
  lemma ExpireAfterWrites(s: StoreState, ws: seq<Write>, key: string, expiry: int)
    requires WellFormed(s) && expiry > 0 && |ws| > 0
    requires forall i :: 0 <= i < |ws| ==> ws[i].key == key
    ensures var r := ExpireState(StoreState(PutAll(s.hashes, ws), s.ttls), key, expiry);
      && WellFormed(r)
      && r.hashes == PutAll(s.hashes, ws)
      && TtlOf(r, key) == expiry
      && (forall k :: k != key ==> TtlOf(r, k) == TtlOf(s, k))
      && (forall k :: k != key && k in s.hashes ==> k in r.hashes && r.hashes[k] == s.hashes[k])
  {
    PutAllOtherKeys(s.hashes, ws, key);
    assert ws[0].key in PutAll(s.hashes, ws);
  }

  /** Writes that all target `key` leave every other hash as it was. */
  lemma {:induction false} PutAllOtherKeys(hashes: map<string, Hash>, ws: seq<Write>, key: string)
    requires forall i :: 0 <= i < |ws| ==> ws[i].key == key
    ensures PutAll(hashes, ws).Keys <= hashes.Keys + {key}
    ensures forall k :: k in hashes && k != key ==> PutAll(hashes, ws)[k] == hashes[k]
    decreases |ws|
  {
    if ws != [] {
      PutAllOtherKeys(hashes, ws[..|ws| - 1], key);
    }
  }

  /** The value of a field after a run of writes: the last write to it, or what was there. */
  function FieldAfter(hashes: map<string, Hash>, ws: seq<Write>, key: string, field: string): Option<string>
    decreases |ws|
  {
    if ws == [] then
      if key in hashes && field in hashes[key] then Some(hashes[key][field]) else None
    else if ws[|ws| - 1].key == key && ws[|ws| - 1].field == field then Some(ws[|ws| - 1].value)
    else FieldAfter(hashes, ws[..|ws| - 1], key, field)
  }

  /** The value after a run of writes is that of the last write to the field. */
  lemma {:induction false} FieldAfterLastWrite(hashes: map<string, Hash>, ws: seq<Write>, key: string, field: string, j: nat)
    requires j < |ws| && ws[j].key == key && ws[j].field == field
    requires forall i :: j < i < |ws| ==> ws[i].key != key || ws[i].field != field
    ensures FieldAfter(hashes, ws, key, field) == Some(ws[j].value)
    decreases |ws|
  {
    if j < |ws| - 1 {
      FieldAfterLastWrite(hashes, ws[..|ws| - 1], key, field, j);
    }
  }

  /** Reading a field after a run of writes gives the last value written to it. */
  lemma {:induction false} PutAllField(hashes: map<string, Hash>, ws: seq<Write>, key: string, field: string)
    ensures FieldAfter(hashes, ws, key, field).Some? <==>
      key in PutAll(hashes, ws) && field in PutAll(hashes, ws)[key]
    ensures FieldAfter(hashes, ws, key, field).Some? ==>
      PutAll(hashes, ws)[key][field] == FieldAfter(hashes, ws, key, field).value
    decreases |ws|
  {
    if ws != [] {
      PutAllField(hashes, ws[..|ws| - 1], key, field);
    }
  }

  /** Redis TTL: -2 for a missing key, -1 for a key without expiry, else the seconds set. */
  function TtlOf(s: StoreState, key: string): (t: int)
    ensures key !in s.hashes ==> t == -2
    ensures WellFormed(s) ==> (t == -2 <==> key !in s.hashes)
    ensures WellFormed(s) ==> (t == -1 <==> key in s.hashes && key !in s.ttls)
  {
    if key !in s.hashes then -2 else if key in s.ttls then s.ttls[key] else -1
  }

  /** Redis EXPIRE: a missing key is left alone; a non-positive timeout deletes the key. */
  function ExpireState(s: StoreState, key: string, seconds: int): (r: StoreState)
    ensures WellFormed(s) ==> WellFormed(r)
    ensures key in s.hashes && seconds > 0 ==> TtlOf(r, key) == seconds && r.hashes == s.hashes
    ensures key in s.hashes && seconds <= 0 ==> key !in r.hashes
    ensures forall k :: k != key ==> TtlOf(r, k) == TtlOf(s, k)
    ensures forall k :: k != key && k in s.hashes ==> k in r.hashes && r.hashes[k] == s.hashes[k]
  {
    if key !in s.hashes then s
    else if seconds <= 0 then StoreState(s.hashes - {key}, s.ttls - {key})
    else StoreState(s.hashes, s.ttls[key := seconds])
  }

  /** The Redis connection a component holds. */
  class Store {
    var hashes: map<string, Hash>
    var ttls: map<string, int>

    ghost predicate Valid()
      reads this
    {
      WellFormed(State())
    }

    function State(): StoreState
      reads this
    {
      StoreState(hashes, ttls)
    }

    constructor ()
      ensures Valid() && hashes == map[] && ttls == map[]
    {
      hashes := map[];
      ttls := map[];
    }

    /** EXISTS */
    method Exists(key: string) returns (b: bool)
      ensures b <==> key in hashes
    {
      b := key in hashes;
    }

    /** HEXISTS */
    method Hexists(key: string, field: string) returns (b: bool)
      ensures b <==> key in hashes && field in hashes[key]
    {
      b := key in hashes && field in hashes[key];
    }

    /** HGET: a missing key or field is reported as an error by the client. */
    method Hget(key: string, field: string) returns (r: Result<string, string>)
      ensures r.Success? <==> key in hashes && field in hashes[key]
      ensures r.Success? ==> r.value == hashes[key][field]
      ensures r.Failure? ==> r.error == KeyMissing
    {
      if key in hashes && field in hashes[key] {
        r := Success(hashes[key][field]);
      } else {
        r := Failure(KeyMissing);
      }
    }

    /** HSET */
    method Hset(key: string, field: string, value: string)
      requires Valid()
      modifies this
      ensures Valid()
      ensures hashes == Put(old(hashes), Write(key, field, value)) && ttls == old(ttls)
    {
      var h := if key in hashes then hashes[key] else map[];
      hashes := hashes[key := h[field := value]];
    }

    /** TTL */
    method Ttl(key: string) returns (t: int)
      ensures t == TtlOf(State(), key)
    {
      if key !in hashes {
        t := -2;
      } else if key in ttls {
        t := ttls[key];
      } else {
        t := -1;
      }
    }

    /** EXPIRE: reports whether the key existed. */
    method Expire(key: string, seconds: int) returns (ok: bool)
      requires Valid()
      modifies this
      ensures Valid()
      ensures ok <==> key in old(hashes)
      ensures State() == ExpireState(old(State()), key, seconds)
    {
      ok := key in hashes;
      if !ok {
        return;
      }
      if seconds <= 0 {
        hashes := hashes - {key};
        ttls := ttls - {key};
      } else {
        ttls := ttls[key := seconds];
      }
    }
  }
}
