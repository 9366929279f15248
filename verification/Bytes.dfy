/** Big-endian fixed-width integers, as both the log files and the wire protocol store them. */
module Bytes {
  import opened Integers

  type Byte = n: nat | n < 256

  /** The checksum, over any byte string. */
  type Digest = seq<Byte> -> Word

  function Pow256(w: nat): (p: nat)
    ensures p > 0
  {
    if w == 0 then 1 else 256 * Pow256(w - 1)
  }

  /** The low `w` bytes of `n`, most significant first. */
  function BE(n: nat, w: nat): (bs: seq<Byte>)
    ensures |bs| == w
    decreases w, n
  {
    if w == 0 then [] else BE(n / 256, w - 1) + [n % 256]
  }

  function UInt(bs: seq<Byte>): (n: nat)
    decreases |bs|
  {
    if bs == [] then 0 else 256 * UInt(bs[..|bs| - 1]) + bs[|bs| - 1]
  }

  lemma {:induction false} ReadBack(n: nat, w: nat)
    requires n < Pow256(w)
    ensures UInt(BE(n, w)) == n
    decreases w
  {
    if w == 0 {
    } else {
      ReadBack(n / 256, w - 1);
      var bs := BE(n, w);
      assert bs[..|bs| - 1] == BE(n / 256, w - 1);
    }
  }

  lemma {:induction false} WriteBack(bs: seq<Byte>)
    ensures UInt(bs) < Pow256(|bs|)
    ensures BE(UInt(bs), |bs|) == bs
    decreases |bs|
  {
    if bs == [] {
    } else {
      WriteBack(bs[..|bs| - 1]);
      assert bs == bs[..|bs| - 1] + [bs[|bs| - 1]];
    }
  }

  lemma {:induction false} Widths()
    ensures Pow256(2) == U16 && Pow256(4) == U32 && Pow256(8) == U64
  {
  }

  /** The first byte weighs most. */
  lemma {:induction false} FirstWeighsMost(bs: seq<Byte>)
    requires bs != []
    ensures var first: int, weight := bs[0], Pow256(|bs| - 1); first * weight <= UInt(bs) < first * weight + weight
  {
    var n := |bs| - 1;
    if n == 0 {
      assert UInt(bs[..0]) == 0;
    } else {
      FirstWeighsMost(bs[..n]);
      Scaled(bs[0], Pow256(n - 1), UInt(bs[..n]), bs[n]);
    }
  }

  lemma {:induction false} Scaled(first: int, weight: int, n: int, last: int)
    requires first * weight <= n < first * weight + weight && 0 <= last < 256
    ensures first * (256 * weight) <= 256 * n + last < first * (256 * weight) + 256 * weight
  {
    assert first * (256 * weight) == 256 * (first * weight);
  }

  // ---------------------------------------------------------------- two's complement

  /** The conversion of a signed integer to the unsigned one of a word with `m` values. */
  function Unsigned(x: int, m: nat): (n: nat)
    requires m > 0 && -(m as int) <= x < m
    ensures n < m
  {
    if x < 0 then x + m else x
  }

  function PutInt64(x: int): (bs: seq<Byte>)
    requires Int64(x)
    ensures |bs| == 8
  {
    BE(Unsigned(x, U64), 8)
  }

  function PutInt32(x: int): (bs: seq<Byte>)
    requires Int32(x)
    ensures |bs| == 4
  {
    BE(Unsigned(x, U32), 4)
  }

  /** The `w` bytes at `at`, as an unsigned integer. */
  function GetUInt(bs: seq<Byte>, at: nat, w: nat): (n: nat)
    requires at + w <= |bs|
    ensures n < Pow256(w)
    decreases w, bs
  {
    if w == 0 then 0 else 256 * GetUInt(bs, at, w - 1) + bs[at + w - 1]
  }

  lemma {:induction false} GetIsUInt(bs: seq<Byte>, at: nat, w: nat)
    requires at + w <= |bs|
    ensures GetUInt(bs, at, w) == UInt(bs[at..at + w])
    decreases w
  {
    if w == 0 {
    } else {
      GetIsUInt(bs, at, w - 1);
      assert bs[at..at + w][..w - 1] == bs[at..at + (w - 1)];
    }
  }

  function GetInt64(bs: seq<Byte>, at: nat): (x: int)
    requires at + 8 <= |bs|
    ensures Int64(x)
  {
    Widths();
    var n := GetUInt(bs, at, 8);
    if n < I64 then n else n - U64
  }

  function GetInt32(bs: seq<Byte>, at: nat): (x: int)
    requires at + 4 <= |bs|
    ensures Int32(x)
  {
    Widths();
    var n := GetUInt(bs, at, 4);
    if n < I32 then n else n - U32
  }

  /** A field written with `BE` into the middle of a byte string reads back. */
  lemma {:induction false} FieldReadsBack(a: seq<Byte>, n: nat, w: nat, b: seq<Byte>)
    requires n < Pow256(w)
    ensures GetUInt(a + BE(n, w) + b, |a|, w) == n
  {
    ReadBack(n, w);
    var bs := a + BE(n, w) + b;
    GetIsUInt(bs, |a|, w);
    assert bs[|a|..|a| + w] == BE(n, w);
  }

  lemma {:induction false} Int64ReadsBack(a: seq<Byte>, x: int, b: seq<Byte>)
    requires Int64(x)
    ensures GetInt64(a + PutInt64(x) + b, |a|) == x
  {
    Widths();
    FieldReadsBack(a, Unsigned(x, U64), 8, b);
  }

  lemma {:induction false} Int32ReadsBack(a: seq<Byte>, x: int, b: seq<Byte>)
    requires Int32(x)
    ensures GetInt32(a + PutInt32(x) + b, |a|) == x
  {
    Widths();
    FieldReadsBack(a, Unsigned(x, U32), 4, b);
  }
}
