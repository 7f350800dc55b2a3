/** Fixed-width values of the relayer: bytes, `u64`, 32-byte words (`H256`,
    `[u8; 32]`) and the big-endian layout `u64::to_be_bytes` produces. */
module Bytes {

  type byte = x: int | 0 <= x < 256

  const U64_LIMIT: int := 0x1_0000_0000_0000_0000

  type u64 = x: int | 0 <= x < 0x1_0000_0000_0000_0000

  /** `n` zero bytes. */
  function Zeros(n: nat): (r: seq<byte>)
    ensures |r| == n
    ensures forall i :: 0 <= i < n ==> r[i] == 0
  {
    seq(n, _ => 0)
  }

  /** A 32-byte word: a block hash, a Merkle node, a public input. */
  type Word = s: seq<byte> | |s| == 32 witness Zeros(32)

  predicate AllZero(s: seq<byte>) {
    forall i :: 0 <= i < |s| ==> s[i] == 0
  }

  function Pow256(n: nat): (r: nat)
    ensures r > 0
  {
    if n == 0 then 1 else 256 * Pow256(n - 1)
  }

  /** The last `n` base-256 digits of `x`, most significant first. */
  function ToBigEndian(x: nat, n: nat): (r: seq<byte>)
    ensures |r| == n
  {
    if n == 0 then [] else ToBigEndian(x / 256, n - 1) + [x % 256]
  }

  /** The number whose big-endian digits are `s`. */
  function FromBigEndian(s: seq<byte>): (v: nat)
    ensures v < Pow256(|s|)
  {
    if |s| == 0 then 0
    else
      var high := FromBigEndian(s[..|s| - 1]);
      assert high * 256 + s[|s| - 1] < Pow256(|s| - 1) * 256 by {
        assert high + 1 <= Pow256(|s| - 1);
        assert (high + 1) * 256 <= Pow256(|s| - 1) * 256;
      }
      high * 256 + s[|s| - 1]
  }

  lemma Pow256Of8()
    ensures Pow256(8) == U64_LIMIT
  {
    calc {
      Pow256(8);
      256 * Pow256(7);
      256 * 256 * Pow256(6);
      256 * 256 * 256 * 256 * Pow256(4);
      256 * 256 * 256 * 256 * 256 * 256 * 256 * 256 * Pow256(0);
    }
  }

  /** Decoding the digits of a number that fits in `n` bytes gives it back. */
  lemma {:induction false} FromToBigEndian(x: nat, n: nat)
    requires x < Pow256(n)
    ensures FromBigEndian(ToBigEndian(x, n)) == x
  {
    if n > 0 {
      var s := ToBigEndian(x, n);
      assert s[..n - 1] == ToBigEndian(x / 256, n - 1);
      assert x / 256 < Pow256(n - 1);
      FromToBigEndian(x / 256, n - 1);
    }
  }

  /** Encoding the value of a digit string in as many digits gives it back. */
  lemma {:induction false} ToFromBigEndian(s: seq<byte>)
    ensures ToBigEndian(FromBigEndian(s), |s|) == s
  {
    if |s| > 0 {
      var high := FromBigEndian(s[..|s| - 1]);
      var v := high * 256 + s[|s| - 1];
      assert v / 256 == high && v % 256 == s[|s| - 1];
      ToFromBigEndian(s[..|s| - 1]);
      assert s == s[..|s| - 1] + [s[|s| - 1]];
    }
  }

  /** `u64::to_be_bytes` followed by `u64::from_be_bytes` is the identity. */
  lemma U64RoundTrip(x: u64)
    ensures |ToBigEndian(x, 8)| == 8
    ensures FromBigEndian(ToBigEndian(x, 8)) == x
  {
    Pow256Of8();
    FromToBigEndian(x, 8);
  }

  /** Any 8 bytes decode to a value that fits in a `u64`. */
  lemma U64Decodes(s: seq<byte>)
    requires |s| == 8
    ensures FromBigEndian(s) < U64_LIMIT
  {
    Pow256Of8();
  }
}
