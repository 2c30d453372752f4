/**
  CRC-32/MPEG-2 as libmpeg/crc32.go computes it, one table lookup a byte, against
  the bit-serial shift register of ISO/IEC 13818-1 Annex A.

  Words are added without carry; `Add` names that sum so that proofs can hide it.
 */
module Crc32 {

  // ----- The reference: one message bit a clock, most significant bit first -----

  const INITIAL: bv32 := 0xFFFF_FFFF

  /** One clock of the register: the outgoing bit, added to the message bit, feeds the taps of 0x04C11DB7. */
  function SerialBit(r: bv32, bit: bool): bv32 {
    if (r & 0x8000_0000 != 0) == bit then r << 1 else (r << 1) ^ 0x04C1_1DB7
  }

  function BitMask(i: nat): bv8
    requires i < 8
  {
    if i == 0 then 0x80 else if i == 1 then 0x40 else if i == 2 then 0x20 else if i == 3 then 0x10
    else if i == 4 then 0x08 else if i == 5 then 0x04 else if i == 6 then 0x02 else 0x01
  }

  predicate MessageBit(src: seq<bv8>, k: nat)
    requires k < 8 * |src|
  {
    src[k / 8] & BitMask(k % 8) != 0
  }

  /** The register, started at r, after the first k bits of src. */
  function Register(r: bv32, src: seq<bv8>, k: nat): bv32
    requires k <= 8 * |src|
    decreases k
  {
    if k == 0 then r else SerialBit(Register(r, src, k - 1), MessageBit(src, k - 1))
  }

  function Checksum(src: seq<bv8>): bv32 {
    Register(INITIAL, src, 8 * |src|)
  }

  // ----- Words as polynomials over GF(2) -----

  function Add(x: bv32, y: bv32): bv32 { x ^ y }

  predicate Top(x: bv32) { x & 0x8000_0000 != 0 }

  function Up(x: bv32): bv32 { x << 1 }

  function TopByte(b: bv8): bv32 { b as bv32 << 24 }

  function Zero(r: bv32): bv32 {
    SerialBit(r, false)
  }

  lemma AddIs(x: bv32, y: bv32, s: bv32)
    requires s == Add(x, y)
    ensures s == x ^ y
  {}

  lemma AddAssociative(x: bv32, y: bv32, z: bv32)
    ensures Add(Add(x, y), z) == Add(x, Add(y, z))
  {
    hide Add;
    var a, b := Add(x, y), Add(y, z);
    AddIs(x, y, a);
    AddIs(y, z, b);
    AddIs(a, z, Add(a, z));
    AddIs(x, b, Add(x, b));
    assert (x ^ y) ^ z == x ^ (y ^ z);
  }

  lemma CancelWord(x: bv32, y: bv32, a: bv32, b: bv32)
    requires a == x ^ y && b == y ^ x
    ensures x ^ a == y && b ^ x == y
  {}

  lemma AddCancels(x: bv32, y: bv32)
    ensures Add(x, Add(x, y)) == y
    ensures Add(Add(y, x), x) == y
  {
    hide Add;
    var a, b := Add(x, y), Add(y, x);
    AddIs(x, y, a);
    AddIs(y, x, b);
    AddIs(x, a, Add(x, a));
    AddIs(b, x, Add(b, x));
    CancelWord(x, y, a, b);
  }

  lemma SerialBitIs(r: bv32, bit: bool, z: bv32)
    requires z == SerialBit(r, bit)
    ensures (r & 0x8000_0000 != 0) == bit ==> z == r << 1
    ensures (r & 0x8000_0000 != 0) != bit ==> z == (r << 1) ^ 0x04C1_1DB7
  {}

  lemma UpIs(m: bv32, bit: bool, up: bv32)
    requires bit == Top(m) && up == Up(m)
    ensures bit == (m & 0x8000_0000 != 0) && up == m << 1
  {}

  lemma AddAheadWord(r: bv32, m: bv32, bit: bool, up: bv32, z: bv32, s: bv32, t: bv32)
    requires bit == (m & 0x8000_0000 != 0) && up == m << 1
    requires (r & 0x8000_0000 != 0) == bit ==> z == r << 1
    requires (r & 0x8000_0000 != 0) != bit ==> z == (r << 1) ^ 0x04C1_1DB7
    requires s == r ^ m
    requires s & 0x8000_0000 == 0 ==> t == s << 1
    requires s & 0x8000_0000 != 0 ==> t == (s << 1) ^ 0x04C1_1DB7
    ensures t == z ^ up
  {}

  /** A message bit at the top may as well be added to the register before the clock. */
  lemma AddAhead(r: bv32, m: bv32)
    ensures Add(SerialBit(r, Top(m)), Up(m)) == Zero(Add(r, m))
  {
    hide Add, SerialBit, Top, Up;
    var bit, up := Top(m), Up(m);
    var z, s := SerialBit(r, bit), Add(r, m);
    var t := Zero(s);
    UpIs(m, bit, up);
    SerialBitIs(r, bit, z);
    AddIs(r, m, s);
    SerialBitIs(s, false, t);
    AddAheadWord(r, m, bit, up, z, s, t);
    AddIs(z, up, Add(z, up));
  }

  lemma ZeroLinearWord(x: bv32, y: bv32, a: bv32, b: bv32, s: bv32, t: bv32)
    requires x & 0x8000_0000 == 0 ==> a == x << 1
    requires x & 0x8000_0000 != 0 ==> a == (x << 1) ^ 0x04C1_1DB7
    requires y & 0x8000_0000 == 0 ==> b == y << 1
    requires y & 0x8000_0000 != 0 ==> b == (y << 1) ^ 0x04C1_1DB7
    requires s == x ^ y
    requires s & 0x8000_0000 == 0 ==> t == s << 1
    requires s & 0x8000_0000 != 0 ==> t == (s << 1) ^ 0x04C1_1DB7
    ensures t == a ^ b
  {}

  lemma ZeroLinear(x: bv32, y: bv32)
    ensures Zero(Add(x, y)) == Add(Zero(x), Zero(y))
  {
    hide Add, SerialBit;
    var a, b, s := Zero(x), Zero(y), Add(x, y);
    var t := Zero(s);
    SerialBitIs(x, false, a);
    SerialBitIs(y, false, b);
    AddIs(x, y, s);
    SerialBitIs(s, false, t);
    ZeroLinearWord(x, y, a, b, s, t);
    AddIs(a, b, Add(a, b));
  }

  lemma ZeroInjectiveWord(x: bv32, y: bv32, z: bv32)
    requires x & 0x8000_0000 == 0 ==> z == x << 1
    requires x & 0x8000_0000 != 0 ==> z == (x << 1) ^ 0x04C1_1DB7
    requires y & 0x8000_0000 == 0 ==> z == y << 1
    requires y & 0x8000_0000 != 0 ==> z == (y << 1) ^ 0x04C1_1DB7
    ensures x == y
  {
    if x & 0x8000_0000 == 0 {
      if y & 0x8000_0000 == 0 {
        ShiftedAlike(x, y, z);
      } else {
        LowBitsDiffer(x, y, z);
      }
    } else {
      if y & 0x8000_0000 == 0 {
        LowBitsDiffer(y, x, z);
      } else {
        ReducedAlike(x, y, z);
      }
    }
  }

  lemma ShiftedAlike(x: bv32, y: bv32, z: bv32)
    requires x & 0x8000_0000 == 0 && y & 0x8000_0000 == 0
    requires z == x << 1 && z == y << 1
    ensures x == y
  {}

  lemma ReducedAlike(x: bv32, y: bv32, z: bv32)
    requires x & 0x8000_0000 != 0 && y & 0x8000_0000 != 0
    requires z == (x << 1) ^ 0x04C1_1DB7 && z == (y << 1) ^ 0x04C1_1DB7
    ensures x == y
  {}

  /** A shifted word ends in 0, a reduced one in 1. */
  lemma LowBitsDiffer(x: bv32, y: bv32, z: bv32)
    requires z == x << 1
    ensures z != (y << 1) ^ 0x04C1_1DB7
  {}

  /** The polynomial's constant term makes every clock reversible. */
  lemma ZeroInjective(x: bv32, y: bv32)
    requires Zero(x) == Zero(y)
    ensures x == y
  {
    var z := Zero(x);
    hide SerialBit;
    SerialBitIs(x, false, z);
    SerialBitIs(y, false, z);
    ZeroInjectiveWord(x, y, z);
  }

  // ----- Many clocks -----

  /** n clocks; the message bits are the top bits of m. */
  function Clock(r: bv32, m: bv32, n: nat): bv32
    decreases n, r
  {
    if n == 0 then r else Clock(SerialBit(r, Top(m)), Up(m), n - 1)
  }

  lemma ClockFirst(r: bv32, n: nat)
    requires n > 0
    ensures Clock(r, 0, n) == Clock(Zero(r), 0, n - 1)
  {
    hide SerialBit;
    assert !Top(0) && Up(0) == 0;
  }

  function Ups(m: bv32, n: nat): bv32
    decreases n, m
  {
    if n == 0 then m else Ups(Up(m), n - 1)
  }

  /** Message bits may be added to the register all at once, before it is clocked. */
  lemma {:induction false} ClockAhead(r: bv32, m: bv32, n: nat)
    ensures Add(Clock(r, m, n), Ups(m, n)) == Clock(Add(r, m), 0, n)
    decreases n
  {
    hide Add, SerialBit, Top, Up;
    if n == 0 {
    } else {
      ClockAhead(SerialBit(r, Top(m)), Up(m), n - 1);
      AddAhead(r, m);
      ClockFirst(Add(r, m), n);
    }
  }

  lemma {:induction false} ClockLinear(x: bv32, y: bv32, n: nat)
    ensures Clock(Add(x, y), 0, n) == Add(Clock(x, 0, n), Clock(y, 0, n))
    decreases n
  {
    hide Add, SerialBit, Top, Up;
    if n == 0 {
    } else {
      ClockLinear(Zero(x), Zero(y), n - 1);
      ZeroLinear(x, y);
      ClockFirst(x, n);
      ClockFirst(y, n);
      ClockFirst(Add(x, y), n);
    }
  }

  lemma {:induction false} ClockInjective(x: bv32, y: bv32, n: nat)
    requires Clock(x, 0, n) == Clock(y, 0, n)
    ensures x == y
    decreases n
  {
    hide SerialBit, Top, Up;
    if n == 0 {
    } else {
      ClockFirst(x, n);
      ClockFirst(y, n);
      ClockInjective(Zero(x), Zero(y), n - 1);
      ZeroInjective(x, y);
    }
  }

  lemma {:induction false} ClockSplit(r: bv32, n: nat, k: nat)
    ensures Clock(r, 0, n + k) == Clock(Clock(r, 0, n), 0, k)
    decreases n
  {
    hide SerialBit, Top, Up;
    if n == 0 {
    } else {
      ClockFirst(r, n);
      ClockFirst(r, n + k);
      ClockSplit(Zero(r), n - 1, k);
    }
  }

  lemma NoClock(r: bv32)
    ensures Clock(r, 0, 0) == r
  {}

  lemma Clock8(r: bv32)
    ensures Clock(r, 0, 8) == Zero(Zero(Zero(Zero(Zero(Zero(Zero(Zero(r))))))))
  {
    hide *;
    ClockFirst(r, 8);
    ClockFirst(Zero(r), 7);
    ClockFirst(Zero(Zero(r)), 6);
    ClockFirst(Zero(Zero(Zero(r))), 5);
    ClockFirst(Zero(Zero(Zero(Zero(r)))), 4);
    ClockFirst(Zero(Zero(Zero(Zero(Zero(r))))), 3);
    ClockFirst(Zero(Zero(Zero(Zero(Zero(Zero(r)))))), 2);
    ClockFirst(Zero(Zero(Zero(Zero(Zero(Zero(Zero(r))))))), 1);
    NoClock(Zero(Zero(Zero(Zero(Zero(Zero(Zero(Zero(r)))))))));
  }

  predicate NoTop(x: bv32) { x & 0xFF00_0000 == 0 }

  function Up8(x: bv32): bv32 { x << 8 }

  lemma ClockLow(x: bv32)
    requires NoTop(x)
    ensures Clock(x, 0, 8) == Up8(x)
  {
    Clock8(x);
  }

  // ----- A byte at a time -----

  function ByteStep(r: bv32, b: bv8): bv32 {
    Clock(Add(r, TopByte(b)), 0, 8)
  }

  /** The byte b at the top of a word, after j clocks. */
  function Aligned(b: bv8, j: nat): bv32
    requires j <= 8
  {
    var a := b as bv32;
    if j == 0 then a << 24 else if j == 1 then a << 25 else if j == 2 then a << 26
    else if j == 3 then a << 27 else if j == 4 then a << 28 else if j == 5 then a << 29
    else if j == 6 then a << 30 else if j == 7 then a << 31 else 0
  }

  lemma BitsOfByte(b: bv8)
    ensures ((b as bv32 << 24) & 0x8000_0000 != 0) == (b & 0x80 != 0) && (b as bv32 << 24) << 1 == b as bv32 << 25
    ensures ((b as bv32 << 25) & 0x8000_0000 != 0) == (b & 0x40 != 0) && (b as bv32 << 25) << 1 == b as bv32 << 26
    ensures ((b as bv32 << 26) & 0x8000_0000 != 0) == (b & 0x20 != 0) && (b as bv32 << 26) << 1 == b as bv32 << 27
    ensures ((b as bv32 << 27) & 0x8000_0000 != 0) == (b & 0x10 != 0) && (b as bv32 << 27) << 1 == b as bv32 << 28
    ensures ((b as bv32 << 28) & 0x8000_0000 != 0) == (b & 0x08 != 0) && (b as bv32 << 28) << 1 == b as bv32 << 29
    ensures ((b as bv32 << 29) & 0x8000_0000 != 0) == (b & 0x04 != 0) && (b as bv32 << 29) << 1 == b as bv32 << 30
    ensures ((b as bv32 << 30) & 0x8000_0000 != 0) == (b & 0x02 != 0) && (b as bv32 << 30) << 1 == b as bv32 << 31
    ensures ((b as bv32 << 31) & 0x8000_0000 != 0) == (b & 0x01 != 0) && (b as bv32 << 31) << 1 == 0
  {}

  lemma AlignedStep(b: bv8, j: nat)
    requires j < 8
    ensures Top(Aligned(b, j)) == (b & BitMask(j) != 0)
    ensures Up(Aligned(b, j)) == Aligned(b, j + 1)
  {
    BitsOfByte(b);
  }

  lemma {:induction false} RegisterByteFrom(r: bv32, src: seq<bv8>, i: nat, j: nat)
    requires i < |src| && j <= 8
    ensures Register(r, src, 8 * i + 8) == Clock(Register(r, src, 8 * i + j), Aligned(src[i], j), 8 - j)
    ensures Ups(Aligned(src[i], j), 8 - j) == 0
    decreases 8 - j
  {
    hide *;
    if j == 8 {
      ByteDone(r, src, i);
    } else {
      RegisterByteFrom(r, src, i, j + 1);
      BitOfByte(src, i, j);
      OneClock(r, src, i, j);
    }
  }

  lemma ByteDone(r: bv32, src: seq<bv8>, i: nat)
    requires i < |src|
    ensures Register(r, src, 8 * i + 8) == Clock(Register(r, src, 8 * i + 8), Aligned(src[i], 8), 0)
    ensures Ups(Aligned(src[i], 8), 0) == 0
  {}

  lemma BitOfByte(src: seq<bv8>, i: nat, j: nat)
    requires i < |src| && j < 8
    ensures Top(Aligned(src[i], j)) == MessageBit(src, 8 * i + j) && Up(Aligned(src[i], j)) == Aligned(src[i], j + 1)
  {
    hide Top, Up, BitMask, Aligned;
    AlignedStep(src[i], j);
    assert (8 * i + j) / 8 == i && (8 * i + j) % 8 == j;
  }

  /** The clock on one bit, in front of the clocks on the rest of the byte. */
  lemma OneClock(r: bv32, src: seq<bv8>, i: nat, j: nat)
    requires i < |src| && j < 8
    requires Top(Aligned(src[i], j)) == MessageBit(src, 8 * i + j) && Up(Aligned(src[i], j)) == Aligned(src[i], j + 1)
    ensures
      Clock(Register(r, src, 8 * i + j), Aligned(src[i], j), 8 - j)
      == Clock(Register(r, src, 8 * i + (j + 1)), Aligned(src[i], j + 1), 8 - (j + 1))
    ensures Ups(Aligned(src[i], j), 8 - j) == Ups(Aligned(src[i], j + 1), 8 - (j + 1))
  {
    hide SerialBit, Top, Up, BitMask, Aligned, MessageBit;
  }

  lemma AddZero(x: bv32)
    ensures Add(x, 0) == x
  {}

  /** Eight clocks of the reference are one byte step. */
  lemma RegisterByte(r: bv32, src: seq<bv8>, i: nat)
    requires i < |src|
    ensures Register(r, src, 8 * i + 8) == ByteStep(Register(r, src, 8 * i), src[i])
  {
    hide Add, SerialBit, Top, Up, BitMask;
    RegisterByteFrom(r, src, i, 0);
    var s := Register(r, src, 8 * i);
    ClockAhead(s, TopByte(src[i]), 8);
    AddZero(Clock(s, TopByte(src[i]), 8));
  }

  function Fold(r: bv32, src: seq<bv8>): bv32
    decreases |src|
  {
    if src == [] then r else Fold(ByteStep(r, src[0]), src[1..])
  }

  lemma {:induction false} FoldSplit(r: bv32, a: seq<bv8>, b: seq<bv8>)
    ensures Fold(r, a + b) == Fold(Fold(r, a), b)
    decreases |a|
  {
    hide ByteStep;
    if a == [] {
      assert a + b == b;
    } else {
      assert (a + b)[1..] == a[1..] + b;
      FoldSplit(ByteStep(r, a[0]), a[1..], b);
    }
  }

  lemma FoldOne(r: bv32, b: bv8)
    ensures Fold(r, [b]) == ByteStep(r, b)
  {
    hide ByteStep;
    assert [b][1..] == [];
  }

  lemma {:induction false} RegisterIsFold(r: bv32, src: seq<bv8>, n: nat)
    requires n <= |src|
    ensures Register(r, src, 8 * n) == Fold(r, src[..n])
    decreases n
  {
    hide ByteStep, SerialBit, MessageBit;
    if n == 0 {
    } else {
      RegisterIsFold(r, src, n - 1);
      RegisterByte(r, src, n - 1);
      assert src[..n] == src[..n - 1] + [src[n - 1]];
      FoldSplit(r, src[..n - 1], [src[n - 1]]);
      FoldOne(Fold(r, src[..n - 1]), src[n - 1]);
    }
  }

  lemma ChecksumIsFold(src: seq<bv8>)
    ensures Checksum(src) == Fold(INITIAL, src)
  {
    RegisterIsFold(INITIAL, src, |src|);
    assert src[..|src|] == src;
  }

  // ----- The table -----

  /** The table of the source, sixteen entries a function. */
  function CrcTable(j: bv8): bv32 {
    if j < 0x10 then CrcRow0(j)
    else if j < 0x20 then CrcRow1(j)
    else if j < 0x30 then CrcRow2(j)
    else if j < 0x40 then CrcRow3(j)
    else if j < 0x50 then CrcRow4(j)
    else if j < 0x60 then CrcRow5(j)
    else if j < 0x70 then CrcRow6(j)
    else if j < 0x80 then CrcRow7(j)
    else if j < 0x90 then CrcRow8(j)
    else if j < 0xa0 then CrcRow9(j)
    else if j < 0xb0 then CrcRowA(j)
    else if j < 0xc0 then CrcRowB(j)
    else if j < 0xd0 then CrcRowC(j)
    else if j < 0xe0 then CrcRowD(j)
    else if j < 0xf0 then CrcRowE(j)
    else CrcRowF(j)
  }

  function CrcRow0(j: bv8): bv32 {
    if j == 0x00 then 0x00000000 else if j == 0x01 then 0x04c11db7 else if j == 0x02 then 0x09823b6e else if j == 0x03 then 0x0d4326d9
    else if j == 0x04 then 0x130476dc else if j == 0x05 then 0x17c56b6b else if j == 0x06 then 0x1a864db2 else if j == 0x07 then 0x1e475005
    else if j == 0x08 then 0x2608edb8 else if j == 0x09 then 0x22c9f00f else if j == 0x0a then 0x2f8ad6d6 else if j == 0x0b then 0x2b4bcb61
    else if j == 0x0c then 0x350c9b64 else if j == 0x0d then 0x31cd86d3 else if j == 0x0e then 0x3c8ea00a else 0x384fbdbd
  }

  function CrcRow1(j: bv8): bv32 {
    if j == 0x10 then 0x4c11db70 else if j == 0x11 then 0x48d0c6c7 else if j == 0x12 then 0x4593e01e else if j == 0x13 then 0x4152fda9
    else if j == 0x14 then 0x5f15adac else if j == 0x15 then 0x5bd4b01b else if j == 0x16 then 0x569796c2 else if j == 0x17 then 0x52568b75
    else if j == 0x18 then 0x6a1936c8 else if j == 0x19 then 0x6ed82b7f else if j == 0x1a then 0x639b0da6 else if j == 0x1b then 0x675a1011
    else if j == 0x1c then 0x791d4014 else if j == 0x1d then 0x7ddc5da3 else if j == 0x1e then 0x709f7b7a else 0x745e66cd
  }

  function CrcRow2(j: bv8): bv32 {
    if j == 0x20 then 0x9823b6e0 else if j == 0x21 then 0x9ce2ab57 else if j == 0x22 then 0x91a18d8e else if j == 0x23 then 0x95609039
    else if j == 0x24 then 0x8b27c03c else if j == 0x25 then 0x8fe6dd8b else if j == 0x26 then 0x82a5fb52 else if j == 0x27 then 0x8664e6e5
    else if j == 0x28 then 0xbe2b5b58 else if j == 0x29 then 0xbaea46ef else if j == 0x2a then 0xb7a96036 else if j == 0x2b then 0xb3687d81
    else if j == 0x2c then 0xad2f2d84 else if j == 0x2d then 0xa9ee3033 else if j == 0x2e then 0xa4ad16ea else 0xa06c0b5d
  }

  function CrcRow3(j: bv8): bv32 {
    if j == 0x30 then 0xd4326d90 else if j == 0x31 then 0xd0f37027 else if j == 0x32 then 0xddb056fe else if j == 0x33 then 0xd9714b49
    else if j == 0x34 then 0xc7361b4c else if j == 0x35 then 0xc3f706fb else if j == 0x36 then 0xceb42022 else if j == 0x37 then 0xca753d95
    else if j == 0x38 then 0xf23a8028 else if j == 0x39 then 0xf6fb9d9f else if j == 0x3a then 0xfbb8bb46 else if j == 0x3b then 0xff79a6f1
    else if j == 0x3c then 0xe13ef6f4 else if j == 0x3d then 0xe5ffeb43 else if j == 0x3e then 0xe8bccd9a else 0xec7dd02d
  }

  function CrcRow4(j: bv8): bv32 {
    if j == 0x40 then 0x34867077 else if j == 0x41 then 0x30476dc0 else if j == 0x42 then 0x3d044b19 else if j == 0x43 then 0x39c556ae
    else if j == 0x44 then 0x278206ab else if j == 0x45 then 0x23431b1c else if j == 0x46 then 0x2e003dc5 else if j == 0x47 then 0x2ac12072
    else if j == 0x48 then 0x128e9dcf else if j == 0x49 then 0x164f8078 else if j == 0x4a then 0x1b0ca6a1 else if j == 0x4b then 0x1fcdbb16
    else if j == 0x4c then 0x018aeb13 else if j == 0x4d then 0x054bf6a4 else if j == 0x4e then 0x0808d07d else 0x0cc9cdca
  }

  function CrcRow5(j: bv8): bv32 {
    if j == 0x50 then 0x7897ab07 else if j == 0x51 then 0x7c56b6b0 else if j == 0x52 then 0x71159069 else if j == 0x53 then 0x75d48dde
    else if j == 0x54 then 0x6b93dddb else if j == 0x55 then 0x6f52c06c else if j == 0x56 then 0x6211e6b5 else if j == 0x57 then 0x66d0fb02
    else if j == 0x58 then 0x5e9f46bf else if j == 0x59 then 0x5a5e5b08 else if j == 0x5a then 0x571d7dd1 else if j == 0x5b then 0x53dc6066
    else if j == 0x5c then 0x4d9b3063 else if j == 0x5d then 0x495a2dd4 else if j == 0x5e then 0x44190b0d else 0x40d816ba
  }

  function CrcRow6(j: bv8): bv32 {
    if j == 0x60 then 0xaca5c697 else if j == 0x61 then 0xa864db20 else if j == 0x62 then 0xa527fdf9 else if j == 0x63 then 0xa1e6e04e
    else if j == 0x64 then 0xbfa1b04b else if j == 0x65 then 0xbb60adfc else if j == 0x66 then 0xb6238b25 else if j == 0x67 then 0xb2e29692
    else if j == 0x68 then 0x8aad2b2f else if j == 0x69 then 0x8e6c3698 else if j == 0x6a then 0x832f1041 else if j == 0x6b then 0x87ee0df6
    else if j == 0x6c then 0x99a95df3 else if j == 0x6d then 0x9d684044 else if j == 0x6e then 0x902b669d else 0x94ea7b2a
  }

  function CrcRow7(j: bv8): bv32 {
    if j == 0x70 then 0xe0b41de7 else if j == 0x71 then 0xe4750050 else if j == 0x72 then 0xe9362689 else if j == 0x73 then 0xedf73b3e
    else if j == 0x74 then 0xf3b06b3b else if j == 0x75 then 0xf771768c else if j == 0x76 then 0xfa325055 else if j == 0x77 then 0xfef34de2
    else if j == 0x78 then 0xc6bcf05f else if j == 0x79 then 0xc27dede8 else if j == 0x7a then 0xcf3ecb31 else if j == 0x7b then 0xcbffd686
    else if j == 0x7c then 0xd5b88683 else if j == 0x7d then 0xd1799b34 else if j == 0x7e then 0xdc3abded else 0xd8fba05a
  }

  function CrcRow8(j: bv8): bv32 {
    if j == 0x80 then 0x690ce0ee else if j == 0x81 then 0x6dcdfd59 else if j == 0x82 then 0x608edb80 else if j == 0x83 then 0x644fc637
    else if j == 0x84 then 0x7a089632 else if j == 0x85 then 0x7ec98b85 else if j == 0x86 then 0x738aad5c else if j == 0x87 then 0x774bb0eb
    else if j == 0x88 then 0x4f040d56 else if j == 0x89 then 0x4bc510e1 else if j == 0x8a then 0x46863638 else if j == 0x8b then 0x42472b8f
    else if j == 0x8c then 0x5c007b8a else if j == 0x8d then 0x58c1663d else if j == 0x8e then 0x558240e4 else 0x51435d53
  }

  function CrcRow9(j: bv8): bv32 {
    if j == 0x90 then 0x251d3b9e else if j == 0x91 then 0x21dc2629 else if j == 0x92 then 0x2c9f00f0 else if j == 0x93 then 0x285e1d47
    else if j == 0x94 then 0x36194d42 else if j == 0x95 then 0x32d850f5 else if j == 0x96 then 0x3f9b762c else if j == 0x97 then 0x3b5a6b9b
    else if j == 0x98 then 0x0315d626 else if j == 0x99 then 0x07d4cb91 else if j == 0x9a then 0x0a97ed48 else if j == 0x9b then 0x0e56f0ff
    else if j == 0x9c then 0x1011a0fa else if j == 0x9d then 0x14d0bd4d else if j == 0x9e then 0x19939b94 else 0x1d528623
  }

  function CrcRowA(j: bv8): bv32 {
    if j == 0xa0 then 0xf12f560e else if j == 0xa1 then 0xf5ee4bb9 else if j == 0xa2 then 0xf8ad6d60 else if j == 0xa3 then 0xfc6c70d7
    else if j == 0xa4 then 0xe22b20d2 else if j == 0xa5 then 0xe6ea3d65 else if j == 0xa6 then 0xeba91bbc else if j == 0xa7 then 0xef68060b
    else if j == 0xa8 then 0xd727bbb6 else if j == 0xa9 then 0xd3e6a601 else if j == 0xaa then 0xdea580d8 else if j == 0xab then 0xda649d6f
    else if j == 0xac then 0xc423cd6a else if j == 0xad then 0xc0e2d0dd else if j == 0xae then 0xcda1f604 else 0xc960ebb3
  }

  function CrcRowB(j: bv8): bv32 {
    if j == 0xb0 then 0xbd3e8d7e else if j == 0xb1 then 0xb9ff90c9 else if j == 0xb2 then 0xb4bcb610 else if j == 0xb3 then 0xb07daba7
    else if j == 0xb4 then 0xae3afba2 else if j == 0xb5 then 0xaafbe615 else if j == 0xb6 then 0xa7b8c0cc else if j == 0xb7 then 0xa379dd7b
    else if j == 0xb8 then 0x9b3660c6 else if j == 0xb9 then 0x9ff77d71 else if j == 0xba then 0x92b45ba8 else if j == 0xbb then 0x9675461f
    else if j == 0xbc then 0x8832161a else if j == 0xbd then 0x8cf30bad else if j == 0xbe then 0x81b02d74 else 0x857130c3
  }

  function CrcRowC(j: bv8): bv32 {
    if j == 0xc0 then 0x5d8a9099 else if j == 0xc1 then 0x594b8d2e else if j == 0xc2 then 0x5408abf7 else if j == 0xc3 then 0x50c9b640
    else if j == 0xc4 then 0x4e8ee645 else if j == 0xc5 then 0x4a4ffbf2 else if j == 0xc6 then 0x470cdd2b else if j == 0xc7 then 0x43cdc09c
    else if j == 0xc8 then 0x7b827d21 else if j == 0xc9 then 0x7f436096 else if j == 0xca then 0x7200464f else if j == 0xcb then 0x76c15bf8
    else if j == 0xcc then 0x68860bfd else if j == 0xcd then 0x6c47164a else if j == 0xce then 0x61043093 else 0x65c52d24
  }

  function CrcRowD(j: bv8): bv32 {
    if j == 0xd0 then 0x119b4be9 else if j == 0xd1 then 0x155a565e else if j == 0xd2 then 0x18197087 else if j == 0xd3 then 0x1cd86d30
    else if j == 0xd4 then 0x029f3d35 else if j == 0xd5 then 0x065e2082 else if j == 0xd6 then 0x0b1d065b else if j == 0xd7 then 0x0fdc1bec
    else if j == 0xd8 then 0x3793a651 else if j == 0xd9 then 0x3352bbe6 else if j == 0xda then 0x3e119d3f else if j == 0xdb then 0x3ad08088
    else if j == 0xdc then 0x2497d08d else if j == 0xdd then 0x2056cd3a else if j == 0xde then 0x2d15ebe3 else 0x29d4f654
  }

  function CrcRowE(j: bv8): bv32 {
    if j == 0xe0 then 0xc5a92679 else if j == 0xe1 then 0xc1683bce else if j == 0xe2 then 0xcc2b1d17 else if j == 0xe3 then 0xc8ea00a0
    else if j == 0xe4 then 0xd6ad50a5 else if j == 0xe5 then 0xd26c4d12 else if j == 0xe6 then 0xdf2f6bcb else if j == 0xe7 then 0xdbee767c
    else if j == 0xe8 then 0xe3a1cbc1 else if j == 0xe9 then 0xe760d676 else if j == 0xea then 0xea23f0af else if j == 0xeb then 0xeee2ed18
    else if j == 0xec then 0xf0a5bd1d else if j == 0xed then 0xf464a0aa else if j == 0xee then 0xf9278673 else 0xfde69bc4
  }

  function CrcRowF(j: bv8): bv32 {
    if j == 0xf0 then 0x89b8fd09 else if j == 0xf1 then 0x8d79e0be else if j == 0xf2 then 0x803ac667 else if j == 0xf3 then 0x84fbdbd0
    else if j == 0xf4 then 0x9abc8bd5 else if j == 0xf5 then 0x9e7d9662 else if j == 0xf6 then 0x933eb0bb else if j == 0xf7 then 0x97ffad0c
    else if j == 0xf8 then 0xafb010b1 else if j == 0xf9 then 0xab710d06 else if j == 0xfa then 0xa6322bdf else if j == 0xfb then 0xa2f33668
    else if j == 0xfc then 0xbcb4666d else if j == 0xfd then 0xb8757bda else if j == 0xfe then 0xb5365d03 else 0xb1f740b4
  }

  lemma Row0Correct(j: bv8)
    requires 0x00 <= j <= 0x0F
    ensures CrcRow0(j) == Clock(TopByte(j), 0, 8)
  {
    Clock8(TopByte(j));
  }

  lemma Row1Correct(j: bv8)
    requires 0x10 <= j <= 0x1F
    ensures CrcRow1(j) == Clock(TopByte(j), 0, 8)
  {
    Clock8(TopByte(j));
  }

  lemma Row2Correct(j: bv8)
    requires 0x20 <= j <= 0x2F
    ensures CrcRow2(j) == Clock(TopByte(j), 0, 8)
  {
    Clock8(TopByte(j));
  }

  lemma Row3Correct(j: bv8)
    requires 0x30 <= j <= 0x3F
    ensures CrcRow3(j) == Clock(TopByte(j), 0, 8)
  {
    Clock8(TopByte(j));
  }

  lemma Row4Correct(j: bv8)
    requires 0x40 <= j <= 0x4F
    ensures CrcRow4(j) == Clock(TopByte(j), 0, 8)
  {
    Clock8(TopByte(j));
  }

  lemma Row5Correct(j: bv8)
    requires 0x50 <= j <= 0x5F
    ensures CrcRow5(j) == Clock(TopByte(j), 0, 8)
  {
    Clock8(TopByte(j));
  }

  lemma Row6Correct(j: bv8)
    requires 0x60 <= j <= 0x6F
    ensures CrcRow6(j) == Clock(TopByte(j), 0, 8)
  {
    Clock8(TopByte(j));
  }

  lemma Row7Correct(j: bv8)
    requires 0x70 <= j <= 0x7F
    ensures CrcRow7(j) == Clock(TopByte(j), 0, 8)
  {
    Clock8(TopByte(j));
  }

  lemma Row8Correct(j: bv8)
    requires 0x80 <= j <= 0x8F
    ensures CrcRow8(j) == Clock(TopByte(j), 0, 8)
  {
    Clock8(TopByte(j));
  }

  lemma Row9Correct(j: bv8)
    requires 0x90 <= j <= 0x9F
    ensures CrcRow9(j) == Clock(TopByte(j), 0, 8)
  {
    Clock8(TopByte(j));
  }

  lemma RowACorrect(j: bv8)
    requires 0xa0 <= j <= 0xaF
    ensures CrcRowA(j) == Clock(TopByte(j), 0, 8)
  {
    Clock8(TopByte(j));
  }

  lemma RowBCorrect(j: bv8)
    requires 0xb0 <= j <= 0xbF
    ensures CrcRowB(j) == Clock(TopByte(j), 0, 8)
  {
    Clock8(TopByte(j));
  }

  lemma RowCCorrect(j: bv8)
    requires 0xc0 <= j <= 0xcF
    ensures CrcRowC(j) == Clock(TopByte(j), 0, 8)
  {
    Clock8(TopByte(j));
  }

  lemma RowDCorrect(j: bv8)
    requires 0xd0 <= j <= 0xdF
    ensures CrcRowD(j) == Clock(TopByte(j), 0, 8)
  {
    Clock8(TopByte(j));
  }

  lemma RowECorrect(j: bv8)
    requires 0xe0 <= j <= 0xeF
    ensures CrcRowE(j) == Clock(TopByte(j), 0, 8)
  {
    Clock8(TopByte(j));
  }

  lemma RowFCorrect(j: bv8)
    requires 0xf0 <= j <= 0xfF
    ensures CrcRowF(j) == Clock(TopByte(j), 0, 8)
  {
    Clock8(TopByte(j));
  }

  /** Each of the 256 constants is eight clocks of the register on its index. */
  lemma TableCorrect(j: bv8)
    ensures CrcTable(j) == Clock(TopByte(j), 0, 8)
  {
    hide SerialBit, Top, Up, TopByte;
    if j < 0x10 {
      Row0Correct(j);
    } else if j < 0x20 {
      Row1Correct(j);
    } else if j < 0x30 {
      Row2Correct(j);
    } else if j < 0x40 {
      Row3Correct(j);
    } else if j < 0x50 {
      Row4Correct(j);
    } else if j < 0x60 {
      Row5Correct(j);
    } else if j < 0x70 {
      Row6Correct(j);
    } else if j < 0x80 {
      Row7Correct(j);
    } else if j < 0x90 {
      Row8Correct(j);
    } else if j < 0xa0 {
      Row9Correct(j);
    } else if j < 0xb0 {
      RowACorrect(j);
    } else if j < 0xc0 {
      RowBCorrect(j);
    } else if j < 0xd0 {
      RowCCorrect(j);
    } else if j < 0xe0 {
      RowDCorrect(j);
    } else if j < 0xf0 {
      RowECorrect(j);
    } else {
      RowFCorrect(j);
    }
  }

  lemma TableWord(r: bv32, b: bv8, j: bv8, low: bv32, t: bv32, u: bv32)
    requires j == (r >> 24) as bv8 ^ b
    requires low == r & 0x00FF_FFFF
    requires t == b as bv32 << 24 && u == j as bv32 << 24
    ensures r ^ t == low ^ u
    ensures low << 8 == r << 8
    ensures low & 0xFF00_0000 == 0
  {}

  lemma TopByteIs(b: bv8, t: bv32)
    requires t == TopByte(b)
    ensures t == b as bv32 << 24
  {}

  lemma Up8Is(x: bv32, u: bv32)
    requires u == Up8(x)
    ensures u == x << 8
  {}

  lemma NoTopIf(x: bv32)
    requires x & 0xFF00_0000 == 0
    ensures NoTop(x)
  {}

  lemma TableParts(r: bv32, b: bv8, j: bv8, low: bv32)
    requires j == (r >> 24) as bv8 ^ b
    requires low == r & 0x00FF_FFFF
    ensures Add(r, TopByte(b)) == Add(low, TopByte(j))
    ensures NoTop(low) && Up8(low) == r << 8
  {
    hide *;
    var t, u := TopByte(b), TopByte(j);
    TopByteIs(b, t);
    TopByteIs(j, u);
    TableWord(r, b, j, low, t, u);
    AddIs(r, t, Add(r, t));
    AddIs(low, u, Add(low, u));
    Up8Is(low, Up8(low));
    NoTopIf(low);
  }

  /** The source's update: the shifted register plus the entry at its top byte plus the message byte. */
  lemma TableStep(r: bv32, b: bv8, j: bv8, next: bv32)
    requires j == (r >> 24) as bv8 ^ b
    requires next == (r << 8) ^ CrcTable(j)
    ensures next == ByteStep(r, b)
  {
    hide Add, CrcTable, TopByte, Clock, NoTop, Up8;
    var low := r & 0x00FF_FFFF;
    TableParts(r, b, j, low);
    TableCorrect(j);
    ClockLinear(low, TopByte(j), 8);
    ClockLow(low);
    AddIs(Up8(low), CrcTable(j), Add(Up8(low), CrcTable(j)));
  }

  lemma RegisterStart(src: seq<bv8>)
    ensures Register(INITIAL, src, 0) == 0xFFFF_FFFF
    ensures Checksum(src) == Register(INITIAL, src, 8 * |src|)
  {}

  /** The loop of the source; it computes the bit-serial register over the whole input. */
  method CRC32(src: seq<bv8>) returns (crc: bv32)
    ensures crc == Checksum(src)
    ensures src == [] ==> crc == 0xFFFF_FFFF
  {
    hide *;
    RegisterStart(src);
    var j: bv8;
    crc := 0xFFFF_FFFF;
    for i := 0 to |src|
      invariant crc == Register(INITIAL, src, 8 * i)
    {
      RegisterByte(INITIAL, src, i);
      ghost var before := crc;
      j := (crc >> 24) as bv8 ^ src[i];
      crc := (crc << 8) ^ CrcTable(j);
      TableStep(before, src[i], j, crc);
    }
  }

  // ----- What the checksum detects -----

  function BigEndian(c: bv32): (b: seq<bv8>)
    ensures |b| == 4
  {
    [(c >> 24) as bv8, ((c >> 16) & 0xFF) as bv8, ((c >> 8) & 0xFF) as bv8, (c & 0xFF) as bv8]
  }

  lemma OwnByteWord(r: bv32, b: bv8, t: bv32, x: bv32)
    requires b as bv32 == r >> 24
    requires t == b as bv32 << 24 && x == r ^ t
    ensures x & 0xFF00_0000 == 0 && x << 8 == r << 8
  {}

  predicate OwnByte(r: bv32, b: bv8) {
    b as bv32 == r >> 24
  }

  lemma OwnByteIs(r: bv32, b: bv8)
    ensures OwnByte(r, b) <==> b as bv32 == r >> 24
  {}

  lemma OwnByteAdd(r: bv32, b: bv8)
    requires OwnByte(r, b)
    ensures NoTop(Add(r, TopByte(b))) && Up8(Add(r, TopByte(b))) == Up8(r)
  {
    hide *;
    var t := TopByte(b);
    var x := Add(r, t);
    OwnByteIs(r, b);
    TopByteIs(b, t);
    AddIs(r, t, x);
    OwnByteWord(r, b, t, x);
    Up8Is(x, Up8(x));
    Up8Is(r, Up8(r));
    NoTopIf(x);
  }

  /** A byte equal to the top of the register leaves only the shift. */
  lemma OwnByteClears(r: bv32, b: bv8)
    requires OwnByte(r, b)
    ensures ByteStep(r, b) == Up8(r)
  {
    hide Add, Clock, TopByte, NoTop, Up8, OwnByte;
    OwnByteAdd(r, b);
    ClockLow(Add(r, TopByte(b)));
  }

  lemma Fold4(r: bv32, b: seq<bv8>)
    requires |b| == 4
    ensures Fold(r, b) == ByteStep(ByteStep(ByteStep(ByteStep(r, b[0]), b[1]), b[2]), b[3])
  {
    hide ByteStep;
    assert b == [b[0]] + ([b[1]] + ([b[2]] + [b[3]]));
    FoldSplit(r, [b[0]], [b[1]] + ([b[2]] + [b[3]]));
    FoldOne(r, b[0]);
    var r1 := ByteStep(r, b[0]);
    FoldSplit(r1, [b[1]], [b[2]] + [b[3]]);
    FoldOne(r1, b[1]);
    var r2 := ByteStep(r1, b[1]);
    FoldSplit(r2, [b[2]], [b[3]]);
    FoldOne(r2, b[2]);
    FoldOne(ByteStep(r2, b[2]), b[3]);
  }

  lemma BigEndianIs(r: bv32)
    ensures OwnByte(r, BigEndian(r)[0]) && OwnByte(Up8(r), BigEndian(r)[1])
    ensures OwnByte(Up8(Up8(r)), BigEndian(r)[2]) && OwnByte(Up8(Up8(Up8(r))), BigEndian(r)[3])
    ensures Up8(Up8(Up8(Up8(r)))) == 0
  {
    hide *;
    var b := BigEndian(r);
    var r1 := Up8(r);
    var r2 := Up8(r1);
    var r3 := Up8(r2);
    BigEndianBytes(r, b[0], b[1], b[2], b[3]);
    Up8Is(r, r1);
    Up8Is(r1, r2);
    Up8Is(r2, r3);
    Up8Is(r3, Up8(r3));
    ShiftWord(r, r1, r2, r3, b[0], b[1], b[2], b[3], Up8(r3));
    OwnByteIs(r, b[0]);
    OwnByteIs(r1, b[1]);
    OwnByteIs(r2, b[2]);
    OwnByteIs(r3, b[3]);
  }

  lemma BigEndianBytes(r: bv32, b0: bv8, b1: bv8, b2: bv8, b3: bv8)
    requires [b0, b1, b2, b3] == BigEndian(r)
    ensures b0 == (r >> 24) as bv8 && b1 == ((r >> 16) & 0xFF) as bv8
    ensures b2 == ((r >> 8) & 0xFF) as bv8 && b3 == (r & 0xFF) as bv8
  {
    var s := [b0, b1, b2, b3];
    assert s[0] == b0 && s[1] == b1 && s[2] == b2 && s[3] == b3;
  }

  lemma ShiftWord(r: bv32, r1: bv32, r2: bv32, r3: bv32, b0: bv8, b1: bv8, b2: bv8, b3: bv8, r4: bv32)
    requires r1 == r << 8 && r2 == r1 << 8 && r3 == r2 << 8 && r4 == r3 << 8
    requires b0 == (r >> 24) as bv8 && b1 == ((r >> 16) & 0xFF) as bv8
    requires b2 == ((r >> 8) & 0xFF) as bv8 && b3 == (r & 0xFF) as bv8
    ensures b0 as bv32 == r >> 24 && b1 as bv32 == r1 >> 24 && b2 as bv32 == r2 >> 24 && b3 as bv32 == r3 >> 24
    ensures r4 == 0
  {}

  lemma OwnBytesClear(r: bv32)
    ensures Fold(r, BigEndian(r)) == 0
  {
    hide *;
    var b := BigEndian(r);
    Fold4(r, b);
    BigEndianIs(r);
    OwnByteClears(r, b[0]);
    OwnByteClears(Up8(r), b[1]);
    OwnByteClears(Up8(Up8(r)), b[2]);
    OwnByteClears(Up8(Up8(Up8(r))), b[3]);
  }

  /** Different registers stay different under the same bytes. */
  lemma {:induction false} FoldInjective(x: bv32, y: bv32, src: seq<bv8>)
    requires Fold(x, src) == Fold(y, src)
    ensures x == y
    decreases |src|
  {
    hide Add, Top, Up, SerialBit, TopByte;
    if src == [] {
    } else {
      var b := TopByte(src[0]);
      FoldInjective(ByteStep(x, src[0]), ByteStep(y, src[0]), src[1..]);
      ClockInjective(Add(x, b), Add(y, b), 8);
      AddCancels(b, x);
      AddCancels(b, y);
    }
  }

  function Down(w: bv32): bv32 { w >> 8 }

  lemma DownIs(w: bv32, d: bv32)
    requires d == Down(w)
    ensures d == w >> 8
  {}

  /** A window of bytes, left-aligned in a word. */
  function Window(m: seq<bv8>): bv32 {
    if m == [] then 0 else Add(TopByte(m[0]), Down(Window(m[1..])))
  }

  function LowMask(n: nat): bv32 {
    if n == 0 then 0xFFFF_FFFF else if n == 1 then 0x00FF_FFFF else if n == 2 then 0xFFFF else if n == 3 then 0xFF else 0
  }

  lemma WindowLowWord(b: bv8, w: bv32, t: bv32, d: bv32, s: bv32)
    requires t == b as bv32 << 24 && d == w >> 8 && s == t ^ d
    ensures w & 0xFFFF_FFFF == 0 ==> s & 0x00FF_FFFF == 0
    ensures w & 0x00FF_FFFF == 0 ==> s & 0xFFFF == 0
    ensures w & 0xFFFF == 0 ==> s & 0xFF == 0
  {}

  predicate LowClear(w: bv32, n: nat) {
    w & LowMask(n) == 0
  }

  lemma WindowLowStep(b: bv8, w: bv32, n: nat)
    requires n <= 2 && LowClear(w, n)
    ensures LowClear(Add(TopByte(b), Down(w)), n + 1)
  {
    hide Add, TopByte, Down;
    var t, d := TopByte(b), Down(w);
    TopByteIs(b, t);
    DownIs(w, d);
    AddIs(t, d, Add(t, d));
    WindowLowWord(b, w, t, d, Add(t, d));
  }

  lemma {:induction false} WindowLow(m: seq<bv8>)
    requires |m| <= 3
    ensures LowClear(Window(m), |m|)
    decreases |m|
  {
    hide Add, TopByte, Down, LowClear;
    if m == [] {
      NothingLow();
    } else {
      WindowLow(m[1..]);
      WindowLowStep(m[0], Window(m[1..]), |m| - 1);
    }
  }

  lemma NothingLow()
    ensures LowClear(0, 0)
  {}

  lemma DownWord(w: bv32, d: bv32, u: bv32)
    requires w & 0xFF == 0 && d == w >> 8 && u == d << 8
    ensures d & 0xFF00_0000 == 0 && u == w
  {}

  lemma DownUp(w: bv32, n: nat)
    requires n <= 3 && LowClear(w, n)
    ensures NoTop(Down(w)) && Up8(Down(w)) == w
  {
    hide *;
    var d := Down(w);
    var u := Up8(d);
    LowByte(w, n);
    DownIs(w, d);
    Up8Is(d, u);
    DownWord(w, d, u);
    NoTopIf(d);
  }

  /** A word with a clear low byte, moved down and clocked eight times, is back. */
  lemma DownClock(w: bv32, n: nat)
    requires n <= 3 && LowClear(w, n)
    ensures Clock(Down(w), 0, 8) == w
  {
    hide *;
    DownUp(w, n);
    ClockLow(Down(w));
  }

  lemma LowByte(w: bv32, n: nat)
    requires n <= 3 && LowClear(w, n)
    ensures w & 0xFF == 0
  {
    if n == 0 {
      assert w & 0xFFFF_FFFF == 0;
    } else if n == 1 {
      assert w & 0x00FF_FFFF == 0;
    } else if n == 2 {
      assert w & 0xFFFF == 0;
    }
  }

  /** Reading up to four bytes is adding them all to the register and then clocking it. */
  lemma {:induction false} FoldWindow(r: bv32, m: seq<bv8>)
    requires |m| <= 4
    ensures Fold(r, m) == Clock(Add(r, Window(m)), 0, 8 * |m|)
    decreases |m|
  {
    hide Add, Clock, TopByte, Down, LowClear;
    if m == [] {
      AddZero(r);
      NoClock(r);
    } else {
      var b, rest := TopByte(m[0]), m[1..];
      FoldWindow(ByteStep(r, m[0]), rest);
      var w := Window(rest);
      WindowLow(rest);
      DownClock(w, |rest|);
      ClockLinear(Add(r, b), Down(w), 8);
      AddAssociative(r, b, Down(w));
      ClockSplit(Add(r, Window(m)), 8, 8 * |rest|);
    }
  }

  lemma WindowInjectiveWord(a: bv8, t: bv32, u: bv32, d: bv32, a': bv8, t': bv32, u': bv32, d': bv32, s: bv32)
    requires t == a as bv32 << 24 && d == u >> 8 && s == t ^ d
    requires t' == a' as bv32 << 24 && d' == u' >> 8 && s == t' ^ d'
    requires u & 0xFF == 0 && u' & 0xFF == 0
    ensures a == a' && u == u'
  {}

  lemma WindowInjectiveStep(a: bv8, u: bv32, a': bv8, u': bv32, n: nat)
    requires n <= 3 && LowClear(u, n) && LowClear(u', n)
    requires Add(TopByte(a), Down(u)) == Add(TopByte(a'), Down(u'))
    ensures a == a' && u == u'
  {
    hide *;
    LowByte(u, n);
    LowByte(u', n);
    var t, t', d, d' := TopByte(a), TopByte(a'), Down(u), Down(u');
    TopByteIs(a, t);
    TopByteIs(a', t');
    DownIs(u, d);
    DownIs(u', d');
    var s := Add(t, d);
    AddIs(t, d, s);
    AddIs(t', d', s);
    WindowInjectiveWord(a, t, u, d, a', t', u', d', s);
  }

  lemma {:induction false} WindowInjective(m: seq<bv8>, m': seq<bv8>)
    requires |m| == |m'| <= 4
    requires Window(m) == Window(m')
    ensures m == m'
    decreases |m|
  {
    hide Add, TopByte, Down, LowClear;
    if m == [] {
    } else {
      WindowLow(m[1..]);
      WindowLow(m'[1..]);
      WindowInjectiveStep(m[0], Window(m[1..]), m'[0], Window(m'[1..]), |m| - 1);
      WindowInjective(m[1..], m'[1..]);
      assert m == [m[0]] + m[1..] && m' == [m'[0]] + m'[1..];
    }
  }

  /** Every burst error confined to four consecutive bytes changes the checksum. */
  lemma BurstDetected(p: seq<bv8>, m: seq<bv8>, m': seq<bv8>, q: seq<bv8>)
    requires |m| == |m'| <= 4 && m != m'
    ensures Checksum(p + m + q) != Checksum(p + m' + q)
  {
    hide Checksum, Fold, Clock, Add, Window;
    ChecksumIsFold(p + m + q);
    ChecksumIsFold(p + m' + q);
    FoldSplit(INITIAL, p + m, q);
    FoldSplit(INITIAL, p + m', q);
    FoldSplit(INITIAL, p, m);
    FoldSplit(INITIAL, p, m');
    var r := Fold(INITIAL, p);
    if Fold(Fold(r, m), q) == Fold(Fold(r, m'), q) {
      FoldInjective(Fold(r, m), Fold(r, m'), q);
      FoldWindow(r, m);
      FoldWindow(r, m');
      ClockInjective(Add(r, Window(m)), Add(r, Window(m')), 8 * |m|);
      AddCancels(r, Window(m));
      AddCancels(r, Window(m'));
      WindowInjective(m, m');
    }
  }

  /** A receiver that runs the register over message and trailer sees zero exactly for the right trailer. */
  lemma ResidueZero(src: seq<bv8>, trailer: seq<bv8>)
    requires |trailer| == 4
    ensures Checksum(src + trailer) == 0 <==> trailer == BigEndian(Checksum(src))
  {
    hide Checksum, Fold, BigEndian;
    var c := BigEndian(Checksum(src));
    ChecksumIsFold(src);
    ChecksumIsFold(src + c);
    FoldSplit(INITIAL, src, c);
    OwnBytesClear(Checksum(src));
    if trailer != c {
      BurstDetected(src, trailer, c, []);
      assert src + trailer + [] == src + trailer && src + c + [] == src + c;
    }
  }
}
