/**
  Bytes and fixed-width unsigned integers as bounded ints, and the big-endian
  fields that every wire format of the repository is made of.
 */
module Bytes {

  type byte = x: int | 0 <= x < 0x100
  type u16 = x: int | 0 <= x < 0x1_0000
  type u32 = x: int | 0 <= x < 0x1_0000_0000
  type u64 = x: int | 0 <= x < 0x1_0000_0000_0000_0000

  /** The conversions uint8(x), uint16(x) and uint32(x) of the source. */
  function U8(x: int): byte { x % 0x100 }

  function U16(x: int): u16 { x % 0x1_0000 }

  function U32(x: int): u32 { x % 0x1_0000_0000 }

  function U64(x: int): u64 { x % 0x1_0000_0000_0000_0000 }

  // Numbers that differ by whole turns of a counter look the same to it.

  lemma SameU16(x: int, y: int, turns: int)
    requires x == y + 0x1_0000 * turns
    ensures U16(x) == U16(y)
  {}

  lemma SameU32(x: int, y: int, turns: int)
    requires x == y + 0x1_0000_0000 * turns
    ensures U32(x) == U32(y)
  {}

  lemma U32Minus(x: int, y: int)
    ensures U32(U32(x) - U32(y)) == U32(x - y)
  {
    var p: int, q: int := U32(x), U32(y);
    SameU32(x - y, p - q, x / 0x1_0000_0000 - y / 0x1_0000_0000);
  }

  // Most significant byte first; a shift by eight bits is a division by 0x100.

  function Put16(v: u16): (b: seq<byte>)
    ensures |b| == 2
  {
    [v / 0x100, v % 0x100]
  }

  function Put24(v: u32): (b: seq<byte>)
    ensures |b| == 3
  {
    [U8(v / 0x100 / 0x100), U8(v / 0x100), U8(v)]
  }

  function Put32(v: u32): (b: seq<byte>)
    ensures |b| == 4
  {
    [v / 0x100 / 0x100 / 0x100, U8(v / 0x100 / 0x100), U8(v / 0x100), U8(v)]
  }

  function Get16(b: seq<byte>): u16
    requires |b| >= 2
  {
    b[0] as int * 0x100 + b[1] as int
  }

  function Get24(b: seq<byte>): u32
    requires |b| >= 3
  {
    (b[0] as int * 0x100 + b[1] as int) * 0x100 + b[2] as int
  }

  function Get32(b: seq<byte>): u32
    requires |b| >= 4
  {
    ((b[0] as int * 0x100 + b[1] as int) * 0x100 + b[2] as int) * 0x100 + b[3] as int
  }

  lemma GetPut16(v: u16, tail: seq<byte>)
    ensures Get16(Put16(v) + tail) == v
  {}

  /** A 24-bit field keeps the value modulo 2^24. */
  lemma GetPut24(v: u32, tail: seq<byte>)
    ensures Get24(Put24(v) + tail) == v % 0x100_0000
  {
    var a := v / 0x100;
    var b := a / 0x100;
    assert v % 0x100_0000 == (b % 0x100) * 0x1_0000 + (a % 0x100) * 0x100 + v % 0x100;
  }

  lemma GetPut32(v: u32, tail: seq<byte>)
    ensures Get32(Put32(v) + tail) == v
  {}

  lemma PutGet32(b: seq<byte>)
    requires |b| == 4
    ensures Put32(Get32(b)) == b
  {}

  function Repeat(b: byte, n: nat): (s: seq<byte>)
    ensures |s| == n
    ensures forall i :: 0 <= i < n ==> s[i] == b
  {
    seq(n, _ => b)
  }
}
