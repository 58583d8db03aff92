/** Unsigned integers read from byte strings in either byte order, as
    Python's `int.from_bytes(b, byteorder=...)` reads them, and the inverse
    encoding `int.to_bytes`. */
module Bytes {

  type byte = b: int | 0 <= b < 0x100

  /** The byte order of the host (Python's `sys.byteorder`). */
  datatype ByteOrder = Little | Big

  /** 256 to the power k: one more than the largest value k bytes can hold. */
  function Pow256(k: nat): (p: nat)
    ensures p > 0
  {
    if k == 0 then 1 else 0x100 * Pow256(k - 1)
  }

  /** Least significant byte first: b[0] + 256*b[1] + 256*256*b[2] + ... */
  function DecodeLittle(b: seq<byte>): (n: nat)
    ensures n < Pow256(|b|)
  {
    if b == [] then 0 else b[0] + 0x100 * DecodeLittle(b[1..])
  }

  /** Most significant byte first (network order). */
  function DecodeBig(b: seq<byte>): (n: nat)
    ensures n < Pow256(|b|)
  {
    if b == [] then 0 else 0x100 * DecodeBig(b[..|b| - 1]) + b[|b| - 1]
  }

  /** `int.from_bytes(b, byteorder=order)`, unsigned; the empty string reads as 0. */
  function FromBytes(b: seq<byte>, order: ByteOrder): (n: nat)
    ensures n < Pow256(|b|)
  {
    match order
    case Little => DecodeLittle(b)
    case Big => DecodeBig(b)
  }

  function Reverse<T>(s: seq<T>): (r: seq<T>)
    ensures |r| == |s|
    ensures forall i :: 0 <= i < |s| ==> r[i] == s[|s| - 1 - i]
  {
    if s == [] then [] else [s[|s| - 1]] + Reverse(s[..|s| - 1])
  }

  /** Reading big-endian is reading the reversed string little-endian. */
  lemma {:induction false} BigIsReversedLittle(b: seq<byte>)
    ensures DecodeBig(b) == DecodeLittle(Reverse(b))
  {
    if b != [] {
      var front := b[..|b| - 1];
      assert Reverse(b)[1..] == Reverse(front);
      BigIsReversedLittle(front);
    }
  }

  /** `n.to_bytes(k, byteorder="little")`. */
  function EncodeLittle(n: nat, k: nat): (b: seq<byte>)
    requires n < Pow256(k)
    ensures |b| == k
  {
    if k == 0 then [] else [n % 0x100] + EncodeLittle(n / 0x100, k - 1)
  }

  /** `n.to_bytes(k, byteorder=order)`. */
  function ToBytes(n: nat, k: nat, order: ByteOrder): (b: seq<byte>)
    requires n < Pow256(k)
    ensures |b| == k
  {
    match order
    case Little => EncodeLittle(n, k)
    case Big => Reverse(EncodeLittle(n, k))
  }

  lemma {:induction false} DecodeEncodeLittle(n: nat, k: nat)
    requires n < Pow256(k)
    ensures DecodeLittle(EncodeLittle(n, k)) == n
  {
    if k > 0 {
      var b := EncodeLittle(n, k);
      assert b[1..] == EncodeLittle(n / 0x100, k - 1);
      DecodeEncodeLittle(n / 0x100, k - 1);
    }
  }

  lemma {:induction false} EncodeDecodeLittle(b: seq<byte>)
    ensures EncodeLittle(DecodeLittle(b), |b|) == b
  {
    if b != [] {
      var n := DecodeLittle(b);
      assert n % 0x100 == b[0] && n / 0x100 == DecodeLittle(b[1..]);
      EncodeDecodeLittle(b[1..]);
    }
  }

  lemma ReverseReverse<T>(s: seq<T>)
    ensures Reverse(Reverse(s)) == s
  {
  }

  /** Decoding in a byte order undoes encoding in that order, in both directions. */
  lemma FromBytesRoundTrip(n: nat, k: nat, b: seq<byte>, order: ByteOrder)
    requires n < Pow256(k)
    ensures FromBytes(ToBytes(n, k, order), order) == n
    ensures ToBytes(FromBytes(b, order), |b|, order) == b
  {
    DecodeEncodeLittle(n, k);
    EncodeDecodeLittle(b);
    if order == Big {
      var e := EncodeLittle(n, k);
      BigIsReversedLittle(Reverse(e));
      ReverseReverse(e);
      BigIsReversedLittle(b);
      EncodeDecodeLittle(Reverse(b));
      ReverseReverse(b);
    }
  }

  /** An MSS of 1460 sent in network order, [0x05, 0xB4], reads as 46085 on a
      little-endian host; read big-endian it is 1460. */
  lemma NetworkMssOnLittleEndianHost()
    ensures FromBytes([0x05, 0xB4], Big) == 1460
    ensures FromBytes([0x05, 0xB4], Little) == 46085
  {
  }
}
