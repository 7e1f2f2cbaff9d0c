/** Go's `encoding/hex`: lower-case hexadecimal text of a byte string. */
module Hex {
  import opened Wrappers

  newtype byte = x: int | 0 <= x < 256

  const Alphabet: string := "0123456789abcdef"

  predicate IsHexChar(c: char)
  {
    '0' <= c <= '9' || 'a' <= c <= 'f'
  }

  function NibbleOf(c: char): (d: nat)
    requires IsHexChar(c)
    ensures d < 16 && Alphabet[d] == c
  {
    if '0' <= c <= '9' then c as int - '0' as int else c as int - 'a' as int + 10
  }

  /** The two characters written for one byte, high nibble first. */
  function HexPair(b: byte): (s: string)
    ensures |s| == 2 && IsHexChar(s[0]) && IsHexChar(s[1])
  {
    [Alphabet[b as int / 16], Alphabet[b as int % 16]]
  }

  /** `hex.EncodeToString`. */
  function Encode(bs: seq<byte>): (s: string)
    ensures |s| == 2 * |bs|
    decreases |bs|
  {
    if bs == [] then "" else HexPair(bs[0]) + Encode(bs[1..])
  }

  lemma {:induction false} EncodeIsHex(bs: seq<byte>)
    ensures forall i :: 0 <= i < |Encode(bs)| ==> IsHexChar(Encode(bs)[i])
    decreases |bs|
  {
    if bs != [] {
      EncodeIsHex(bs[1..]);
      var s := Encode(bs);
      forall i | 0 <= i < |s|
        ensures IsHexChar(s[i])
      {
        if i >= 2 {
          assert s[i] == Encode(bs[1..])[i - 2];
        }
      }
    }
  }

  /** `hex.DecodeString`: fails on odd length or a character outside the lower-case alphabet. */
  function Decode(s: string): (r: Option<seq<byte>>)
    ensures r.Some? ==> 2 * |r.value| == |s|
    decreases |s|
  {
    if s == [] then Some([])
    else if |s| == 1 || !IsHexChar(s[0]) || !IsHexChar(s[1]) then None
    else match Decode(s[2..])
      case None => None
      case Some(rest) => Some([(NibbleOf(s[0]) * 16 + NibbleOf(s[1])) as byte] + rest)
  }

  lemma NibbleOfAlphabet(d: nat)
    requires d < 16
    ensures NibbleOf(Alphabet[d]) == d
  {
    assert Alphabet[d] as int == if d < 10 then '0' as int + d else 'a' as int + d - 10;
  }

  lemma DecodePair(b: byte, rest: string)
    ensures Decode(HexPair(b) + rest) ==
      match Decode(rest)
      case None => None
      case Some(t) => Some([b] + t)
  {
    var s := HexPair(b) + rest;
    var hi, lo := b as int / 16, b as int % 16;
    assert hi * 16 + lo == b as int;
    assert s[0] == Alphabet[hi] && s[1] == Alphabet[lo];
    NibbleOfAlphabet(hi);
    NibbleOfAlphabet(lo);
    assert s[2..] == rest;
    var head := (NibbleOf(s[0]) * 16 + NibbleOf(s[1])) as byte;
    assert head == b;
    assert Decode(s) == match Decode(rest)
      case None => None
      case Some(t) => Some([head] + t);
  }

  lemma {:induction false} DecodeEncode(bs: seq<byte>)
    ensures Decode(Encode(bs)) == Some(bs)
    decreases |bs|
  {
    if bs != [] {
      DecodeEncode(bs[1..]);
      DecodePair(bs[0], Encode(bs[1..]));
      assert [bs[0]] + bs[1..] == bs;
    }
  }

  /** Different digests give different hexadecimal keys. */
  lemma EncodeInjective(a: seq<byte>, b: seq<byte>)
    requires Encode(a) == Encode(b)
    ensures a == b
  {
    DecodeEncode(a);
    DecodeEncode(b);
  }

  /** A byte string stored as text, one character per byte (`string(b)` on a `[]byte`). */
  function Chars(bs: seq<byte>): (s: string)
    ensures |s| == |bs|
  {
    seq(|bs|, i requires 0 <= i < |bs| => bs[i] as int as char)
  }

  /** The bytes of a stored text (`[]byte(s)`), for text made by `Chars`. */
  function Bytes(s: string): (bs: seq<byte>)
    ensures |bs| == |s|
  {
    seq(|s|, i requires 0 <= i < |s| => (s[i] as int % 256) as byte)
  }

  lemma BytesChars(bs: seq<byte>)
    ensures Bytes(Chars(bs)) == bs
  {
  }
}
