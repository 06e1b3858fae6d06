/**
 * Byte strings and the fixed-width little-endian unsigned fields that
 * Python's struct module writes for the format characters 'H' (2 bytes)
 * and 'I' (4 bytes) under the '<' (little-endian, standard size) prefix.
 */
module Bytes {

  /** One octet of a Python bytes object. */
  type byte = b: int | 0 <= b < 256

  function Pow256(n: nat): (p: nat)
    ensures p >= 1
  {
    if n == 0 then 1 else 256 * Pow256(n - 1)
  }

  /** The n-byte little-endian encoding of x, least significant byte first. */
  function LE(x: nat, n: nat): (b: seq<byte>)
    ensures |b| == n
  {
    if n == 0 then [] else [x % 256] + LE(x / 256, n - 1)
  }

  /** The unsigned number a little-endian byte string stands for. */
  function FromLE(b: seq<byte>): (x: nat)
    ensures x < Pow256(|b|)
  {
    if b == [] then 0 else b[0] + 256 * FromLE(b[1..])
  }

  /** Decoding an encoded field gives the value back, for every value the width can hold. */
  lemma {:induction false} FromLEOfLE(x: nat, n: nat)
    requires x < Pow256(n)
    ensures FromLE(LE(x, n)) == x
  {
    if n > 0 {
      assert x / 256 < Pow256(n - 1);
      FromLEOfLE(x / 256, n - 1);
      assert LE(x, n)[1..] == LE(x / 256, n - 1);
    }
  }

  /** Encoding a decoded byte string gives the bytes back: the encoding is a bijection. */
  lemma {:induction false} LEOfFromLE(b: seq<byte>)
    ensures LE(FromLE(b), |b|) == b
  {
    if b != [] {
      LEOfFromLE(b[1..]);
      SplitByte(b[0], FromLE(b[1..]));
      assert LE(FromLE(b), |b|) == [b[0]] + LE(FromLE(b[1..]), |b| - 1);
    }
  }

  /** The low byte and the rest of lo + 256 * hi. */
  lemma SplitByte(lo: nat, hi: nat)
    requires lo < 256
    ensures (lo + 256 * hi) % 256 == lo && (lo + 256 * hi) / 256 == hi
  {
  }

  /** A string of ASCII characters as the bytes of a Python bytes literal. */
  function Ascii(s: string): (b: seq<byte>)
    requires forall i :: 0 <= i < |s| ==> s[i] as int < 128
    ensures |b| == |s|
  {
    seq(|s|, i requires 0 <= i < |s| => s[i] as int)
  }

  /** A value below 256 occupies the low byte; the rest of the field is zero. */
  lemma LEOfSmall(x: nat)
    requires x < 256
    ensures LE(x, 2) == [x, 0] && LE(x, 3) == [x, 0, 0] && LE(x, 4) == [x, 0, 0, 0]
  {
    assert x % 256 == x && x / 256 == 0;
    assert LE(0, 1) == [0] && LE(0, 2) == [0, 0] && LE(0, 3) == [0, 0, 0];
  }
}
