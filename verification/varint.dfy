/** Go's `encoding/binary` signed varints (`PutVarint` / `Varint`): zig-zag mapping
    followed by little-endian base-128 groups with a continuation bit. */
module Varint {
  import opened Hex

  const MaxVarintLen64: nat := 10

  function Pow128(k: nat): (p: nat)
    ensures p >= 1
  {
    if k == 0 then 1 else 128 * Pow128(k - 1)
  }

  /** A Go `int64`. */
  predicate IsInt64(x: int)
  {
    -0x8000_0000_0000_0000 <= x < 0x8000_0000_0000_0000
  }

  /** The zig-zag mapping `uint64(x) << 1`, inverted bitwise for negative `x`. */
  function ZigZag(x: int): (u: nat)
    ensures u % 2 == 0 <==> x >= 0
    ensures IsInt64(x) ==> u < 0x1_0000_0000_0000_0000
  {
    if x >= 0 then 2 * x else -2 * x - 1
  }

  /** `int64(u >> 1)`, bitwise inverted when the low bit of `u` is set. */
  function UnZigZag(u: nat): int
  {
    if u % 2 == 0 then u / 2 else -(u / 2) - 1
  }

  /** `binary.PutUvarint`: the bytes written for `x`. */
  function PutUvarint(x: nat): (bs: seq<byte>)
    ensures |bs| >= 1 && bs[|bs| - 1] < 0x80
    ensures forall i :: 0 <= i < |bs| - 1 ==> bs[i] >= 0x80
    decreases x
  {
    if x < 0x80 then [x as byte] else [ContinuationByte(x % 0x80)] + PutUvarint(x / 0x80)
  }

  /** A group of seven bits with the continuation bit set. */
  function ContinuationByte(low: nat): (b: byte)
    requires low < 0x80
    ensures b as int == low + 0x80
  {
    (low + 0x80) as byte
  }

  /** `binary.PutVarint`. */
  function PutVarint(x: int): seq<byte>
  {
    PutUvarint(ZigZag(x))
  }

  /** What `binary.Uvarint` returns: the value and the number of bytes read, 0 when the
      buffer ends before the last group and negative on 64-bit overflow. */
  datatype Decoded = Decoded(value: int, n: int)

  /** `binary.Uvarint` on the bytes that start at offset `i` of the buffer. */
  function UvarintFrom(buf: seq<byte>, i: nat): (r: Decoded)
    ensures r.n > 0 ==> r.n <= i + |buf| && r.value >= 0
    decreases |buf|
  {
    if buf == [] then Decoded(0, 0)
    else if buf[0] < 0x80 then
      if i > 9 || (i == 9 && buf[0] > 1) then Decoded(0, -(i + 1)) else Decoded(buf[0] as int, i + 1)
    else
      var r := UvarintFrom(buf[1..], i + 1);
      if r.n > 0 then Decoded(buf[0] as int - 0x80 + 0x80 * r.value, r.n) else r
  }

  function Uvarint(buf: seq<byte>): Decoded
  {
    UvarintFrom(buf, 0)
  }

  /** `binary.Varint`. */
  function VarintOf(buf: seq<byte>): Decoded
  {
    var r := Uvarint(buf);
    if r.n > 0 then Decoded(UnZigZag(r.value), r.n) else Decoded(0, r.n)
  }

  lemma {:induction false} UvarintFromPut(x: nat, i: nat)
    requires i <= 9 && x < 2 * Pow128(9 - i)
    ensures UvarintFrom(PutUvarint(x), i) == Decoded(x, i + |PutUvarint(x)|)
    decreases x
  {
    if x >= 0x80 {
      if i == 9 {
        assert false;
      }
      assert x / 0x80 < 2 * Pow128(9 - (i + 1));
      assert PutUvarint(x)[1..] == PutUvarint(x / 0x80);
      UvarintFromPut(x / 0x80, i + 1);
    }
  }

  lemma UnZigZagInverse(x: int)
    ensures UnZigZag(ZigZag(x)) == x
  {
  }

  /** Decoding what `PutVarint` wrote gives back the integer and consumes every byte. */
  lemma VarintRoundTrip(x: int)
    requires IsInt64(x)
    ensures VarintOf(PutVarint(x)) == Decoded(x, |PutVarint(x)|)
  {
    assert Pow128(9) == 0x8000_0000_0000_0000;
    UvarintFromPut(ZigZag(x), 0);
  }
}
