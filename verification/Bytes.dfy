/** Bytes, big-endian integers as `int.to_bytes(width, "big")` writes them, and a few value types. */
module Bytes {
  import opened Sequences

  type Byte = b: int | 0 <= b < 256

  datatype Option<+T> = None | Some(value: T)

  function Power256(width: nat): (p: nat)
    ensures p > 0
  {
    if width == 0 then 1 else 256 * Power256(width - 1)
  }

  /** A count that fits the eight-byte fields of the checkpoint digest. */
  type Uint64 = n: nat | n < 0x1_0000_0000_0000_0000

  /** A byte string whose length fits an eight-byte field. */
  type Text = s: seq<Byte> | |s| < 0x1_0000_0000_0000_0000

  lemma FieldWidths()
    ensures Power256(2) == 0x1_0000
    ensures Power256(8) == 0x1_0000_0000_0000_0000
  {
    assert Power256(4) == 0x1_0000_0000;
    assert Power256(6) == 0x1_0000_0000_0000;
  }

  function BigEndian(value: nat, width: nat): (s: seq<Byte>)
    requires value < Power256(width)
    ensures |s| == width
  {
    if width == 0 then [] else BigEndian(value / 256, width - 1) + [value % 256]
  }

  function FromBigEndian(s: seq<Byte>): nat {
    if s == [] then 0 else 256 * FromBigEndian(s[..|s| - 1]) + s[|s| - 1]
  }

  lemma {:induction false} BigEndianRoundTrip(value: nat, width: nat)
    requires value < Power256(width)
    ensures FromBigEndian(BigEndian(value, width)) == value
  {
    if width > 0 {
      var s := BigEndian(value, width);
      assert s[..|s| - 1] == BigEndian(value / 256, width - 1);
      BigEndianRoundTrip(value / 256, width - 1);
    }
  }

  lemma BigEndianInjective(a: nat, b: nat, width: nat)
    requires a < Power256(width) && b < Power256(width)
    requires BigEndian(a, width) == BigEndian(b, width)
    ensures a == b
  {
    BigEndianRoundTrip(a, width);
    BigEndianRoundTrip(b, width);
  }

  /** A byte string behind its own length. */
  function Prefixed(p: seq<Byte>, width: nat): (s: seq<Byte>)
    requires |p| < Power256(width)
    ensures |s| == width + |p|
  {
    BigEndian(|p|, width) + p
  }

  lemma PrefixedParts(p: seq<Byte>, width: nat, rest: seq<Byte>)
    requires |p| < Power256(width)
    ensures var s := Prefixed(p, width) + rest;
            s[..width] == BigEndian(|p|, width) && s[width..width + |p|] == p && s[width + |p|..] == rest
  {
    hide BigEndian, Power256;
    ThreeParts(BigEndian(|p|, width), p, rest);
  }

  /** What follows a length-prefixed string cannot be mistaken for part of it. */
  lemma PrefixedIsSelfDelimiting(p: seq<Byte>, q: seq<Byte>, width: nat, rest: seq<Byte>, rest': seq<Byte>)
    requires |p| < Power256(width) && |q| < Power256(width)
    requires Prefixed(p, width) + rest == Prefixed(q, width) + rest'
    ensures p == q && rest == rest'
  {
    hide BigEndian, Power256, Prefixed;
    PrefixedParts(p, width, rest);
    PrefixedParts(q, width, rest');
    BigEndianInjective(|p|, |q|, width);
  }
}
