/**
  Picture sizes out of H.264 sequence parameter sets: `bitReader` and `parseSPSDimensions` of
  libdash/dash.go, against a writer for section 7.3.2.1.1 of ITU-T H.264 with the Exp-Golomb
  codes of section 9.1 and the emulation prevention of section 7.4.1.
 */
module Sps {
  import opened Bytes
  import AnnexB
  import opened Wrappers

  type bit = x: int | 0 <= x < 2

  function Pow2(n: nat): (p: nat)
    ensures p >= 1
  {
    if n == 0 then 1 else 2 * Pow2(n - 1)
  }

  /** The number a bit string writes, most significant bit first. */
  function Value(bits: seq<bit>): nat {
    if bits == [] then 0 else 2 * Value(bits[..|bits| - 1]) + bits[|bits| - 1]
  }

  /** The last n binary digits of v. */
  function Binary(v: nat, n: nat): (bits: seq<bit>)
    ensures |bits| == n
  {
    if n == 0 then [] else Binary(v / 2, n - 1) + [v % 2]
  }

  lemma {:induction false} ValueBinary(v: nat, n: nat)
    requires v < Pow2(n)
    ensures Value(Binary(v, n)) == v
  {
    if n > 0 {
      ValueBinary(v / 2, n - 1);
      assert Binary(v, n)[..n - 1] == Binary(v / 2, n - 1);
    }
  }

  lemma {:induction false} BinaryValue(bits: seq<bit>)
    ensures Binary(Value(bits), |bits|) == bits
    ensures Value(bits) < Pow2(|bits|)
  {
    if bits != [] {
      BinaryValue(bits[..|bits| - 1]);
    }
  }

  lemma HalfThenShift(v: nat, j: nat)
    requires j < 7
    ensures v / 2 / Pow2(j) == v / Pow2(j + 1)
  {
    SmallPow2();
    if j == 0 {
    } else if j == 1 {
    } else if j == 2 {
    } else if j == 3 {
    } else if j == 4 {
    } else if j == 5 {
    } else {
    }
  }

  lemma SmallPow2()
    ensures Pow2(0) == 1 && Pow2(1) == 2 && Pow2(2) == 4 && Pow2(3) == 8
    ensures Pow2(4) == 16 && Pow2(5) == 32 && Pow2(6) == 64 && Pow2(7) == 128
  {}

  /** A shift and a mask pick one digit. */
  lemma {:induction false} DigitOf(v: nat, n: nat, k: nat)
    requires k < n <= 8
    ensures Binary(v, n)[k] == v / Pow2(n - 1 - k) % 2
  {
    if k < n - 1 {
      DigitOf(v / 2, n - 1, k);
      HalfThenShift(v, n - 2 - k);
    }
  }

  // ----- Bytes and bits -----

  function BitsOf(buf: seq<byte>): (bits: seq<bit>)
    ensures |bits| == 8 * |buf|
  {
    if buf == [] then [] else Binary(buf[0], 8) + BitsOf(buf[1..])
  }

  function BytesOf(bits: seq<bit>): (buf: seq<byte>)
    requires |bits| % 8 == 0
    ensures |buf| == |bits| / 8
    decreases |bits|
  {
    if bits == [] then []
    else
      BinaryValue(bits[..8]);
      assert Pow2(8) == 256;
      [Value(bits[..8])] + BytesOf(bits[8..])
  }

  lemma {:induction false} BitsOfBytes(bits: seq<bit>)
    requires |bits| % 8 == 0
    ensures BitsOf(BytesOf(bits)) == bits
    decreases |bits|
  {
    if bits != [] {
      BinaryValue(bits[..8]);
      BitsOfBytes(bits[8..]);
      assert bits == bits[..8] + bits[8..];
    }
  }

  lemma {:induction false} BitAt(buf: seq<byte>, pos: nat)
    requires pos < 8 * |buf|
    ensures BitsOf(buf)[pos] == buf[pos / 8] as int / Pow2(7 - pos % 8) % 2
  {
    hide Binary, Pow2;
    if pos < 8 {
      DigitOf(buf[0], 8, pos);
      assert pos / 8 == 0 && pos % 8 == pos;
    } else {
      BitAt(buf[1..], pos - 8);
      assert (pos - 8) / 8 == pos / 8 - 1 && (pos - 8) % 8 == pos % 8;
      assert buf[1..][pos / 8 - 1] == buf[pos / 8];
    }
  }

  // ----- Reading -----

  /** `readBits` on the bits left: the value, or 0 and nothing left when they are too few. */
  function TakeBits(left: seq<bit>, n: nat): (u32, seq<bit>) {
    if n <= |left| then (U32(Value(left[..n])), left[n..]) else (0, [])
  }

  /** `readUE` after some zeros: more than 32 of them, or no bit left, give 0. */
  function TakeUE(left: seq<bit>, zeros: nat): (u32, seq<bit>)
    requires zeros <= 32
    decreases |left|
  {
    if left == [] then (0, [])
    else if left[0] == 1 then
      var extra := TakeBits(left[1..], zeros);
      (U32(Pow2(zeros) - 1 + extra.0), extra.1)
    else if zeros == 32 then (0, left[1..])
    else TakeUE(left[1..], zeros + 1)
  }

  function SignedOf(v: u32): int {
    if v % 2 == 0 then -(v / 2) else U32(v + 1) / 2
  }

  lemma EmptyValue(all: seq<bit>, pos: nat)
    requires pos <= |all|
    ensures Value(all[pos..pos]) == 0
  {}

  lemma ValueGrows(all: seq<bit>, pos0: nat, pos: nat)
    requires pos0 <= pos < |all|
    ensures Value(all[pos0..pos + 1]) == 2 * Value(all[pos0..pos]) + all[pos]
  {
    assert all[pos0..pos + 1][..pos - pos0] == all[pos0..pos];
  }

  lemma DoubledU32(x: nat, b: bit)
    ensures U32(2 * U32(x) + b) == U32(2 * x + b)
    ensures U32(0) == 0
  {
    SameU32(2 * x + b, 2 * U32(x) + b, 2 * (x / 0x1_0000_0000));
  }

  lemma TakenSlices(all: seq<bit>, pos0: nat, n: nat)
    requires pos0 + n <= |all|
    ensures TakeBits(all[pos0..], n) == (U32(Value(all[pos0..pos0 + n])), all[pos0 + n..])
  {
    assert all[pos0..][..n] == all[pos0..pos0 + n] && all[pos0..][n..] == all[pos0 + n..];
  }

  lemma NoBits(left: seq<bit>)
    ensures TakeBits(left, 0) == (0, left)
  {}

  /** One bit read, and what it decides. */
  lemma UEStep(left: seq<bit>, zeros: nat)
    requires zeros <= 32
    ensures
      var b := TakeBits(left, 1);
      TakeUE(left, zeros)
      == if |left| < 1 then (0, b.1)
         else if b.0 != 0 then
           var extra := TakeBits(b.1, zeros);
           (U32(Pow2(zeros) - 1 + extra.0), extra.1)
         else if zeros == 32 then (0, b.1)
         else TakeUE(b.1, zeros + 1)
  {
    if left != [] {
      assert left[..1] == [left[0]] && Value([left[0]]) == left[0];
    }
  }

  class BitReader {
    const buf: seq<byte>
    var pos: nat

    constructor (buf: seq<byte>)
      ensures this.buf == buf && Left() == BitsOf(buf)
      ensures pos <= 8 * |buf|
    {
      this.buf := buf;
      pos := 0;
      new;
      assert BitsOf(buf)[0..] == BitsOf(buf);
    }

    ghost function Left(): seq<bit>
      reads this
    {
      if pos <= 8 * |buf| then BitsOf(buf)[pos..] else []
    }

    method ReadBits(n: nat) returns (v: u32, ok: bool)
      requires pos <= 8 * |buf|
      modifies this`pos
      ensures pos <= 8 * |buf|
      ensures ok <==> n <= |old(Left())|
      ensures (v, Left()) == TakeBits(old(Left()), n)
    {
      hide BitsOf, Value, Pow2, U32;
      v := 0;
      assert U32(0) == 0 by { DoubledU32(0, 0); }
      ghost var all := BitsOf(buf);
      ghost var pos0 := pos;
      EmptyValue(all, pos0);
      var i := 0;
      while i < n
        invariant 0 <= i <= n && pos == pos0 + i <= 8 * |buf|
        invariant v == U32(Value(all[pos0..pos]))
      {
        var bytePos := pos / 8;
        if bytePos >= |buf| {
          assert Left() == [];
          return 0, false;
        }
        BitAt(buf, pos);
        var theBit := buf[bytePos] as int / Pow2(7 - pos % 8) % 2;
        ValueGrows(all, pos0, pos);
        DoubledU32(Value(all[pos0..pos]), theBit);
        v := U32(2 * v + theBit);
        pos := pos + 1;
        i := i + 1;
      }
      TakenSlices(all, pos0, n);
      return v, true;
    }

    method ReadUE() returns (v: u32)
      requires pos <= 8 * |buf|
      modifies this`pos
      ensures pos <= 8 * |buf|
      ensures (v, Left()) == TakeUE(old(Left()), 0)
    {
      hide BitsOf, Value, Left, Pow2, TakeBits, TakeUE;
      var zeros := 0;
      while true
        invariant 0 <= zeros <= 32 && pos <= 8 * |buf|
        invariant TakeUE(Left(), zeros) == TakeUE(old(Left()), 0)
        decreases 33 - zeros
      {
        UEStep(Left(), zeros);
        var theBit, ok := ReadBits(1);
        if !ok {
          return 0;
        }
        if theBit != 0 {
          break;
        }
        zeros := zeros + 1;
        if zeros > 32 {
          return 0;
        }
      }
      v := U32(Pow2(zeros) - 1);
      NoBits(Left());
      if zeros > 0 {
        var extra, _ := ReadBits(zeros);
        v := U32(v + extra);
      }
    }

    method ReadSE() returns (v: int)
      requires pos <= 8 * |buf|
      modifies this`pos
      ensures pos <= 8 * |buf|
      ensures v == SignedOf(TakeUE(old(Left()), 0).0) && Left() == TakeUE(old(Left()), 0).1
    {
      var u: int := ReadUE();
      if u % 2 == 0 {
        return -(u / 2);
      }
      return U32(u + 1) / 2;
    }
  }

  // ----- Codes -----

  /** The digits of v after its leading one. */
  function Digits(v: nat): (k: nat)
    requires v >= 1
    ensures Pow2(k) <= v < 2 * Pow2(k)
  {
    if v == 1 then 0 else Digits(v / 2) + 1
  }

  function Zeros(n: nat): (bits: seq<bit>)
    ensures |bits| == n
  {
    if n == 0 then [] else [0] + Zeros(n - 1)
  }

  /** The ue(v) code. */
  function Code(v: nat): seq<bit> {
    var k := Digits(v + 1);
    Zeros(k) + [1] + Binary(v + 1 - Pow2(k), k)
  }

  /** The se(v) code. */
  function SignedCode(v: int): seq<bit> {
    Code(if v > 0 then 2 * v - 1 else -2 * v)
  }

  lemma BitsRead(v: nat, n: nat, tail: seq<bit>)
    requires v < Pow2(n) && v < 0x1_0000_0000
    ensures TakeBits(Binary(v, n) + tail, n) == (v, tail)
  {
    ValueBinary(v, n);
    hide Binary, Value, Pow2;
    FrontBits(Binary(v, n), tail);
    assert U32(v) == v;
    hide U32;
  }

  lemma FrontBits(bits: seq<bit>, tail: seq<bit>)
    ensures (bits + tail)[..|bits|] == bits && (bits + tail)[|bits|..] == tail
  {}

  lemma OneBitRead(b: bit, tail: seq<bit>)
    ensures TakeBits([b] + tail, 1) == (b, tail)
  {
    assert ([b] + tail)[..1] == [b] && Value([b]) == b;
  }

  lemma {:induction false} ZerosSkipped(k: nat, zeros: nat, rest: seq<bit>)
    requires zeros + k <= 32
    ensures TakeUE(Zeros(k) + rest, zeros) == TakeUE(rest, zeros + k)
    decreases k
  {
    if k == 0 {
      assert [] + rest == rest;
    } else {
      assert (Zeros(k) + rest)[1..] == Zeros(k - 1) + rest;
      ZerosSkipped(k - 1, zeros + 1, rest);
    }
  }

  lemma {:induction false} Pow2Grows(j: nat, k: nat)
    requires j <= k
    ensures Pow2(j) <= Pow2(k)
  {
    if j < k {
      Pow2Grows(j, k - 1);
    }
  }

  lemma Pow2Values()
    ensures Pow2(8) == 0x100 && Pow2(16) == 0x1_0000 && Pow2(32) == 0x1_0000_0000
  {
    assert Pow2(8) == 0x100;
    assert Pow2(16) == 0x1_0000;
    assert Pow2(24) == 0x100_0000;
  }

  lemma UERead(v: nat, tail: seq<bit>)
    requires v < 0xffff_ffff
    ensures TakeUE(Code(v) + tail, 0) == (v, tail)
  {
    var k := Digits(v + 1);
    if k > 31 {
      Pow2Grows(32, k);
      Pow2Values();
      assert false;
    }
    var extra := v + 1 - Pow2(k);
    var rest := [1] + (Binary(extra, k) + tail);
    assert Code(v) + tail == Zeros(k) + rest;
    ZerosSkipped(k, 0, rest);
    BitsRead(extra, k, tail);
    assert rest[1..] == Binary(extra, k) + tail;
  }

  /** Signed codes read back over the whole range of the standard. */
  lemma SERead(v: int, tail: seq<bit>)
    requires -0x8000_0000 < v < 0x8000_0000
    ensures
      var u := TakeUE(SignedCode(v) + tail, 0);
      SignedOf(u.0) == v && u.1 == tail
  {
    UERead(if v > 0 then 2 * v - 1 else -2 * v, tail);
  }

  // ----- Sequence parameter sets -----

  datatype Colour = Colour(chroma: nat, separate: bit, lumaDepth: nat, chromaDepth: nat, bypass: bit, scaling: bit)

  datatype Order = Type0(log2: nat)
                 | Type1(always: bit, nonRef: int, topBottom: int, offsets: seq<int>)
                 | Type2

  /** The fields up to the picture size; `colour` is there for the high profiles only. */
  datatype ParameterSet = ParameterSet(
    profile: byte, flags: u16, id: nat, colour: Colour, frameNum: nat, order: Order,
    refs: nat, gaps: bit, width: nat, height: nat, frameMbsOnly: bit)

  /** The condition on profile_idc in section 7.3.2.1.1, under which the chroma and depth fields are written. */
  predicate HasColour(profile: byte) {
    || profile == 100  // High
    || profile == 110  // High 10
    || profile == 122  // High 4:2:2
    || profile == 244  // High 4:4:4 Predictive
    || profile == 44   // CAVLC 4:4:4 Intra
    || profile == 83 || profile == 86  // Scalable Baseline, Scalable High
    || profile == 118 || profile == 128 || profile == 138  // Multiview High, Stereo High, Multiview Depth High
    || profile == 139 || profile == 134 || profile == 135  // Enhanced Multiview Depth High, and the MFC profiles
  }

  predicate Codable(v: nat) { v < 0xffff_ffff }

  predicate SignedCodable(v: int) { -0x8000_0000 < v < 0x8000_0000 }

  predicate Writable(s: ParameterSet) {
    && Codable(s.id) && Codable(s.frameNum) && Codable(s.refs) && Codable(s.width) && Codable(s.height)
    && Codable(s.colour.chroma) && Codable(s.colour.lumaDepth) && Codable(s.colour.chromaDepth)
    && match s.order
       case Type0(log2) => Codable(log2)
       case Type1(_, nonRef, topBottom, offsets) =>
         && SignedCodable(nonRef) && SignedCodable(topBottom) && Codable(|offsets|)
         && forall i :: 0 <= i < |offsets| ==> SignedCodable(offsets[i])
       case Type2 => true
  }

  predicate HasScalingLists(s: ParameterSet) {
    HasColour(s.profile) && s.colour.scaling == 1
  }

  // Section 7.3.2.1.1, each part in front of the bits that follow it.

  function ColourBits(c: Colour, rest: seq<bit>): seq<bit> {
    Code(c.chroma)
    + ((if c.chroma == 3 then [c.separate] else [])
       + (Code(c.lumaDepth) + (Code(c.chromaDepth) + ([c.bypass] + ([c.scaling] + rest)))))
  }

  function OffsetBits(offsets: seq<int>, rest: seq<bit>): seq<bit> {
    if offsets == [] then rest else SignedCode(offsets[0]) + OffsetBits(offsets[1..], rest)
  }

  function OrderBits(o: Order, rest: seq<bit>): seq<bit> {
    match o
    case Type0(log2) => Code(0) + (Code(log2) + rest)
    case Type1(always, nonRef, topBottom, offsets) =>
      Code(1) + ([always] + (SignedCode(nonRef) + (SignedCode(topBottom) + (Code(|offsets|) + OffsetBits(offsets, rest)))))
    case Type2 => Code(2) + rest
  }

  function SizeBits(s: ParameterSet, rest: seq<bit>): seq<bit> {
    Code(s.refs) + ([s.gaps] + (Code(s.width) + (Code(s.height) + ([s.frameMbsOnly] + rest))))
  }

  function SetBits(s: ParameterSet, rest: seq<bit>): seq<bit> {
    var body := Code(s.frameNum) + OrderBits(s.order, SizeBits(s, rest));
    Binary(s.profile, 8) + (Binary(s.flags, 16) + (Code(s.id)
      + if HasColour(s.profile) then ColourBits(s.colour, body) else body))
  }

  // ----- Parsing -----

  /** The profiles for which the parser skips these fields. */
  const PARSED_PROFILES: set<int> := {100, 110, 122, 244, 44, 83, 86, 118, 128, 138, 139, 134, 135}

  /** Past the high-profile fields; None when scaling lists follow. */
  function PastColour(profile: u32, left: seq<bit>): Option<seq<bit>> {
    if profile !in PARSED_PROFILES then Some(left)
    else
      var chroma := TakeUE(left, 0);
      var depths := if chroma.0 == 3 then TakeBits(chroma.1, 1).1 else chroma.1;
      var bypass := TakeUE(TakeUE(depths, 0).1, 0).1;
      var scaling := TakeBits(TakeBits(bypass, 1).1, 1);
      if scaling.0 != 0 then None else Some(scaling.1)
  }

  function PastOffsets(left: seq<bit>, n: nat): seq<bit>
    decreases n
  {
    if n == 0 then left else PastOffsets(TakeUE(left, 0).1, n - 1)
  }

  function PastOrder(left: seq<bit>): seq<bit> {
    var kind := TakeUE(left, 0);
    if kind.0 == 0 then TakeUE(kind.1, 0).1
    else if kind.0 == 1 then
      var count := TakeUE(TakeUE(TakeUE(TakeBits(kind.1, 1).1, 0).1, 0).1, 0);
      PastOffsets(count.1, count.0)
    else kind.1
  }

  function SizeAt(left: seq<bit>): (u16, u16) {
    var width := TakeUE(TakeBits(TakeUE(left, 0).1, 1).1, 0);
    var height := TakeUE(width.1, 0);
    (WidthOf(width.0), HeightOf(height.0, TakeBits(height.1, 1).0))
  }

  // The arithmetic of the sizes, on uint32 and cut down to uint16.

  function WidthOf(mbsMinus1: u32): u16 {
    U16(U32(U32(mbsMinus1 + 1) * 16))
  }

  function HeightOf(unitsMinus1: u32, frameMbsOnly: u32): u16 {
    var units := U32(unitsMinus1 + 1);
    U16(U32((if frameMbsOnly == 0 then U32(units * 2) else units) * 16))
  }

  lemma U16OfU32(x: nat)
    ensures U16(U32(x)) == U16(x)
  {
    SameU16(x, U32(x), 0x1_0000 * (x / 0x1_0000_0000));
  }

  lemma Doubled(units: nat)
    ensures U16(U32(U32(units * 2) * 16)) == U16(32 * units)
  {
    var doubled: int := U32(units * 2);
    U16OfU32(16 * doubled);
    SameU16(32 * units, 16 * doubled, 0x10_0000 * (units * 2 / 0x1_0000_0000));
  }

  lemma SizesOf(width: u32, height: u32, frameMbsOnly: bit)
    requires width < 0xffff_ffff && height < 0xffff_ffff
    ensures WidthOf(width) == U16(16 * (width + 1))
    ensures HeightOf(height, frameMbsOnly) == U16(16 * (height + 1) * (2 - frameMbsOnly))
  {
    U16OfU32(16 * (width + 1));
    var units: int := height + 1;
    assert U32(units) == units;
    if frameMbsOnly == 0 {
      Doubled(units);
      assert 16 * units * (2 - frameMbsOnly) == 32 * units;
    } else {
      U16OfU32(16 * units);
      assert 16 * units * (2 - frameMbsOnly) == 16 * units;
    }
    hide U32, U16;
  }

  function SetAt(left: seq<bit>): (u16, u16) {
    var profile := TakeBits(left, 8);
    var past := PastColour(profile.0, TakeUE(TakeBits(profile.1, 16).1, 0).1);
    if past.None? then (0, 0) else SizeAt(PastOrder(TakeUE(past.value, 0).1))
  }

  /** The emulation prevention bytes taken out. */
  function Stripped(b: seq<byte>): (r: seq<byte>)
    ensures b != [] ==> r != []
  {
    if b == [] then []
    else if |b| > 2 && b[0] == 0 && b[1] == 0 && b[2] == 3 then [0, 0] + Stripped(b[3..])
    else [b[0]] + Stripped(b[1..])
  }

  function Dimensions(sps: seq<byte>): (u16, u16) {
    if |sps| < 4 then (0, 0) else SetAt(BitsOf(Stripped(sps)[1..]))
  }

  lemma StripStep(sps: seq<byte>, i: nat)
    requires i < |sps|
    ensures
      Stripped(sps[i..])
      == if i + 2 < |sps| && sps[i] == 0 && sps[i + 1] == 0 && sps[i + 2] == 3 then [0, 0] + Stripped(sps[i + 3..])
         else [sps[i]] + Stripped(sps[i + 1..])
  {
    assert sps[i..][1..] == sps[i + 1..];
    assert i + 2 < |sps| ==> sps[i..][3..] == sps[i + 3..];
  }

  method Strip(sps: seq<byte>) returns (rbsp: seq<byte>)
    ensures rbsp == Stripped(sps)
  {
    rbsp := [];
    var i := 0;
    assert sps[0..] == sps;
    while i < |sps|
      invariant 0 <= i <= |sps|
      invariant rbsp + Stripped(sps[i..]) == Stripped(sps)
    {
      hide Stripped;
      StripStep(sps, i);
      if i + 2 < |sps| && sps[i] == 0 && sps[i + 1] == 0 && sps[i + 2] == 3 {
        rbsp := rbsp + [0, 0];
        i := i + 2;
        i := i + 1;
        continue;
      }
      rbsp := rbsp + [sps[i]];
      i := i + 1;
    }
  }

  method ParseSPSDimensions(sps: seq<byte>) returns (width: u16, height: u16)
    ensures (width, height) == Dimensions(sps)
  {
    hide TakeBits, TakeUE, Stripped, BitsOf, PastColour, PastOrder, BitReader.Left, WidthOf, HeightOf;
    if |sps| < 4 {
      return 0, 0;
    }
    var rbsp := Strip(sps);
    var br := new BitReader(rbsp[1..]);
    var profile, _ := br.ReadBits(8);
    var _, _ := br.ReadBits(16);
    var _ := br.ReadUE();
    var ok := SkipColour(br, profile);
    if !ok {
      return 0, 0;
    }
    var _ := br.ReadUE();
    SkipOrder(br);
    var _ := br.ReadUE();
    var _, _ := br.ReadBits(1);
    var picWidthInMbsMinus1 := br.ReadUE();
    var picHeightInMapUnitsMinus1 := br.ReadUE();
    var frameMbsOnly, _ := br.ReadBits(1);
    width := WidthOf(picWidthInMbsMinus1);
    height := HeightOf(picHeightInMapUnitsMinus1, frameMbsOnly);
  }

  /** The fields of the high profiles; false when scaling lists follow. */
  method SkipColour(br: BitReader, profile: u32) returns (ok: bool)
    requires br.pos <= 8 * |br.buf|
    modifies br`pos
    ensures br.pos <= 8 * |br.buf|
    ensures PastColour(profile, old(br.Left())) == if ok then Some(br.Left()) else None
  {
    hide TakeBits, TakeUE, BitReader.Left;
    if profile in PARSED_PROFILES {
      var chromaFormat := br.ReadUE();
      if chromaFormat == 3 {
        var _, _ := br.ReadBits(1);
      }
      var _ := br.ReadUE();
      var _ := br.ReadUE();
      var _, _ := br.ReadBits(1);
      var seqScaling, _ := br.ReadBits(1);
      if seqScaling != 0 {
        return false;
      }
    }
    return true;
  }

  /** The switch over the picture order count type, with its loop over the cycle. */
  method SkipOrder(br: BitReader)
    requires br.pos <= 8 * |br.buf|
    modifies br`pos
    ensures br.pos <= 8 * |br.buf|
    ensures br.Left() == PastOrder(old(br.Left()))
  {
    hide TakeBits, TakeUE, BitReader.Left;
    var picOrderCntType := br.ReadUE();
    if picOrderCntType == 0 {
      var _ := br.ReadUE();
    } else if picOrderCntType == 1 {
      var _, _ := br.ReadBits(1);
      var _ := br.ReadSE();
      var _ := br.ReadSE();
      var n := br.ReadUE();
      ghost var left := br.Left();
      var i := 0;
      while i < n
        invariant 0 <= i <= n && br.pos <= 8 * |br.buf|
        invariant PastOffsets(br.Left(), n - i) == PastOffsets(left, n)
      {
        var _ := br.ReadSE();
        i := i + 1;
      }
    }
  }

  // ----- Parsing undoes writing -----

  lemma ColourRead(profile: byte, c: Colour, rest: seq<bit>)
    requires HasColour(profile)
    requires Codable(c.chroma) && Codable(c.lumaDepth) && Codable(c.chromaDepth)
    ensures PastColour(profile, ColourBits(c, rest)) == if c.scaling == 1 then None else Some(rest)
  {
    hide TakeBits, TakeUE, Code;
    var scaling := [c.scaling] + rest;
    var bypass := [c.bypass] + scaling;
    var chromaDepth := Code(c.chromaDepth) + bypass;
    var lumaDepth := Code(c.lumaDepth) + chromaDepth;
    OneBitRead(c.scaling, rest);
    OneBitRead(c.bypass, scaling);
    UERead(c.chromaDepth, bypass);
    UERead(c.lumaDepth, chromaDepth);
    OneBitRead(c.separate, lumaDepth);
    assert [] + lumaDepth == lumaDepth;
    UERead(c.chroma, (if c.chroma == 3 then [c.separate] else []) + lumaDepth);
  }

  lemma {:induction false} OffsetsRead(offsets: seq<int>, rest: seq<bit>)
    requires forall i :: 0 <= i < |offsets| ==> SignedCodable(offsets[i])
    ensures PastOffsets(OffsetBits(offsets, rest), |offsets|) == rest
  {
    hide TakeUE, SignedCode;
    if offsets != [] {
      SERead(offsets[0], OffsetBits(offsets[1..], rest));
      OffsetsRead(offsets[1..], rest);
    }
  }

  lemma OrderRead(s: ParameterSet, rest: seq<bit>)
    requires Writable(s)
    ensures PastOrder(OrderBits(s.order, rest)) == rest
  {
    hide TakeBits, TakeUE, Code, SignedCode, PastOffsets, OffsetBits;
    match s.order
    case Type0(log2) =>
      UERead(0, Code(log2) + rest);
      UERead(log2, rest);
    case Type1(always, nonRef, topBottom, offsets) =>
      var cycle := OffsetBits(offsets, rest);
      var count := Code(|offsets|) + cycle;
      var second := SignedCode(topBottom) + count;
      var first := SignedCode(nonRef) + second;
      OffsetsRead(offsets, rest);
      UERead(|offsets|, cycle);
      SERead(topBottom, count);
      SERead(nonRef, second);
      OneBitRead(always, first);
      UERead(1, [always] + first);
    case Type2 =>
      UERead(2, rest);
  }

  lemma SizeRead(s: ParameterSet, rest: seq<bit>)
    requires Writable(s)
    ensures
      SizeAt(SizeBits(s, rest))
      == (U16(16 * (s.width + 1)), U16(16 * (s.height + 1) * (2 - s.frameMbsOnly)))
  {
    hide TakeBits, TakeUE, Code, WidthOf, HeightOf;
    var only := [s.frameMbsOnly] + rest;
    var height := Code(s.height) + only;
    var width := Code(s.width) + height;
    OneBitRead(s.frameMbsOnly, rest);
    UERead(s.height, only);
    UERead(s.width, height);
    OneBitRead(s.gaps, width);
    UERead(s.refs, [s.gaps] + width);
    SizesOf(s.width, s.height, s.frameMbsOnly);
  }

  /** Any set of any profile, whatever follows it: its size modulo 2^16, or nothing behind scaling lists. */
  lemma SetRead(s: ParameterSet, rest: seq<bit>)
    requires Writable(s)
    ensures
      SetAt(SetBits(s, rest))
      == if HasScalingLists(s) then (0, 0)
         else (U16(16 * (s.width + 1)), U16(16 * (s.height + 1) * (2 - s.frameMbsOnly)))
  {
    hide TakeBits, TakeUE, Code, Binary, PastOrder, OrderBits, SizeAt, SizeBits, PastColour, ColourBits;
    var size := SizeBits(s, rest);
    var order := OrderBits(s.order, size);
    var body := Code(s.frameNum) + order;
    var colour := if HasColour(s.profile) then ColourBits(s.colour, body) else body;
    SizeRead(s, rest);
    OrderRead(s, size);
    UERead(s.frameNum, order);
    if HasColour(s.profile) {
      ColourRead(s.profile, s.colour, body);
    } else {
      assert PastColour(s.profile, body) == Some(body) by { LowProfile(s.profile, body); }
    }
    UERead(s.id, colour);
    Pow2Values();
    BitsRead(s.flags, 16, Code(s.id) + colour);
    BitsRead(s.profile, 8, Binary(s.flags, 16) + (Code(s.id) + colour));
  }

  lemma LowProfile(profile: byte, left: seq<bit>)
    requires !HasColour(profile)
    ensures PastColour(profile, left) == Some(left)
  {}

  // ----- Emulation prevention -----

  /** Section 7.4.1: a 3 in front of every byte below 4 that follows two zeros. */
  function Escaped(b: seq<byte>, zeros: nat): seq<byte>
    decreases |b|
  {
    if b == [] then []
    else if zeros >= 2 && b[0] <= 3 then [3, b[0]] + Escaped(b[1..], if b[0] == 0 then 1 else 0)
    else [b[0]] + Escaped(b[1..], if b[0] == 0 then zeros + 1 else 0)
  }

  function Run(zeros: nat): seq<byte>
    requires zeros <= 2
  {
    if zeros == 0 then [] else if zeros == 1 then [0] else [0, 0]
  }

  /** A byte that ends a run of zeros, and is no prevention byte, is kept. */
  lemma StrippedRun(zeros: nat, x: byte, rest: seq<byte>)
    requires zeros <= 2 && x != 0 && (zeros == 2 ==> x > 3)
    ensures Stripped(Run(zeros) + ([x] + rest)) == Run(zeros) + ([x] + Stripped(rest))
  {
    assert ([x] + rest)[1..] == rest;
    assert Stripped([x] + rest) == [x] + Stripped(rest);
    if zeros == 0 {
      assert [] + ([x] + rest) == [x] + rest;
    } else if zeros == 1 {
      assert ([0] + ([x] + rest))[1..] == [x] + rest;
    } else {
      var all := [0, 0] + ([x] + rest);
      assert all[1..] == [0] + ([x] + rest) && all[1..][1..] == [x] + rest;
    }
  }

  lemma StrippedGuard(rest: seq<byte>)
    ensures Stripped([0, 0] + ([3] + rest)) == [0, 0] + Stripped(rest)
  {
    var all := [0, 0] + ([3] + rest);
    assert all[3..] == rest;
  }

  lemma RunGrows(zeros: nat, rest: seq<byte>)
    requires zeros < 2
    ensures Run(zeros) + ([0] + rest) == Run(zeros + 1) + rest
  {}

  lemma StrippedGuarded(x: byte, rest: seq<byte>, tail: seq<byte>)
    requires x <= 3
    requires if x == 0 then Stripped(Run(1) + rest) == Run(1) + tail else Stripped(rest) == tail
    ensures Stripped(Run(2) + ([3, x] + rest)) == Run(2) + ([x] + tail)
  {
    assert [3, x] + rest == [3] + ([x] + rest);
    StrippedGuard([x] + rest);
    if x != 0 {
      StrippedRun(0, x, rest);
      assert [] + ([x] + rest) == [x] + rest && [] + ([x] + Stripped(rest)) == [x] + Stripped(rest);
    }
    hide Stripped;
  }

  lemma {:induction false} StrippedEscaped(b: seq<byte>, zeros: nat)
    requires zeros <= 2
    ensures Stripped(Run(zeros) + Escaped(b, zeros)) == Run(zeros) + b
    decreases |b|
  {
    if b == [] {
      assert Run(zeros) + [] == Run(zeros);
      assert zeros > 0 ==> Run(zeros)[1..] == Run(zeros - 1);
      assert Stripped([0]) == [0];
    } else {
      var x, tail := b[0], b[1..];
      var later := if zeros == 2 && x == 0 then 1 else if x == 0 then zeros + 1 else 0;
      var rest := Escaped(tail, later);
      StrippedEscaped(tail, later);
      assert b == [x] + tail;
      assert Run(0) + rest == rest && Run(0) + tail == tail;
      hide Stripped, Run;
      if zeros == 2 && x <= 3 {
        StrippedGuarded(x, rest, tail);
      } else if x == 0 {
        RunGrows(zeros, rest);
        RunGrows(zeros, tail);
      } else {
        StrippedRun(zeros, x, rest);
      }
    }
  }

  /** No two zeros with a byte below 3 behind them: no start code, and none can appear. */
  predicate Guarded(b: seq<byte>) {
    forall j :: 0 <= j < |b| - 2 && b[j] == 0 && b[j + 1] == 0 ==> b[j + 2] > 2
  }

  lemma GuardedCons(x: byte, b: seq<byte>)
    requires Guarded(b)
    requires |b| >= 2 && x == 0 && b[0] == 0 ==> b[1] > 2
    ensures Guarded([x] + b)
  {
    var all := [x] + b;
    forall j | 0 <= j < |all| - 2 && all[j] == 0 && all[j + 1] == 0
      ensures all[j + 2] > 2
    {
      if j > 0 {
        assert b[j - 1] == 0 && b[j] == 0 && b[j + 1] == all[j + 2];
      }
    }
  }

  lemma {:induction false} EscapedGuarded(b: seq<byte>, zeros: nat)
    requires zeros <= 2
    ensures Guarded(Escaped(b, zeros))
    ensures zeros == 2 && b != [] ==> Escaped(b, zeros)[0] > 2
    ensures zeros == 1 && |b| > 1 && b[0] == 0 ==> |Escaped(b, zeros)| > 1 && Escaped(b, zeros)[1] > 2
    ensures zeros == 1 && |b| == 1 && b[0] == 0 ==> |Escaped(b, zeros)| == 1
    ensures b != [] && b[0] != 0 && zeros < 2 ==> Escaped(b, zeros)[0] != 0
    decreases |b|
  {
    if b != [] {
      var x, tail := b[0], b[1..];
      var later := if zeros == 2 && x == 0 then 1 else if x == 0 then zeros + 1 else 0;
      var rest := Escaped(tail, later);
      EscapedGuarded(tail, later);
      GuardedCons(x, rest);
      if zeros == 2 && x <= 3 {
        GuardedCons(3, [x] + rest);
        assert [3] + ([x] + rest) == [3, x] + rest;
      }
    }
  }

  lemma {:induction false} EscapedLonger(b: seq<byte>, zeros: nat)
    ensures |Escaped(b, zeros)| >= |b|
    decreases |b|
  {
    if b != [] {
      EscapedLonger(b[1..], if b[0] == 0 then (if zeros >= 2 && b[0] <= 3 then 1 else zeros + 1) else 0);
    }
  }

  /** The NAL unit of a parameter set: a header byte, the bits in bytes, emulation prevention over all of it. */
  function Unit(header: byte, s: ParameterSet, rest: seq<bit>): seq<byte>
    requires |SetBits(s, rest)| % 8 == 0
  {
    Escaped([header] + BytesOf(SetBits(s, rest)), 0)
  }

  lemma UnitParts(header: byte, s: ParameterSet, rest: seq<bit>)
    requires |SetBits(s, rest)| % 8 == 0
    ensures
      var nal := Unit(header, s, rest);
      |nal| >= 4 && BitsOf(Stripped(nal)[1..]) == SetBits(s, rest)
  {
    var bits := SetBits(s, rest);
    var raw := [header] + BytesOf(bits);
    assert |bits| >= 24 by { hide Code, ColourBits, OrderBits, SizeBits, Binary; }
    StrippedEscaped(raw, 0);
    assert [] + raw == raw && [] + Escaped(raw, 0) == Escaped(raw, 0);
    EscapedLonger(raw, 0);
    BitsOfBytes(bits);
    assert raw[1..] == BytesOf(bits);
  }

  /**
    Parsing undoes writing, through emulation prevention, for every profile and order type and any
    bits after the size: it gives the size itself exactly when there are no scaling lists and the
    size fits 16 bits. And the unit written can stand in an Annex B stream.
   */
  lemma DimensionsRead(header: byte, s: ParameterSet, rest: seq<bit>)
    requires Writable(s) && |SetBits(s, rest)| % 8 == 0
    ensures
      var width, height: int := 16 * (s.width + 1), 16 * (s.height + 1) * (2 - s.frameMbsOnly);
      && (Dimensions(Unit(header, s, rest)) == (width, height)
          <==> !HasScalingLists(s) && width < 0x1_0000 && height < 0x1_0000)
      && (HasScalingLists(s) ==> Dimensions(Unit(header, s, rest)) == (0, 0))
      && AnnexB.Clean(Unit(header, s, rest))
  {
    hide *;
    assert Dimensions(Unit(header, s, rest)) == SetAt(SetBits(s, rest)) by {
      UnitDimensions(header, s, rest);
    }
    SetRead(s, rest);
    Fits(16 * (s.width + 1));
    Fits(16 * (s.height + 1) * (2 - s.frameMbsOnly));
    UnitClean(header, s, rest);
  }

  lemma Fits(size: int)
    requires size > 0
    ensures U16(size) == size <==> size < 0x1_0000
  {}

  lemma UnitDimensions(header: byte, s: ParameterSet, rest: seq<bit>)
    requires |SetBits(s, rest)| % 8 == 0
    ensures Dimensions(Unit(header, s, rest)) == SetAt(SetBits(s, rest))
  {
    UnitParts(header, s, rest);
    hide Unit, SetAt, SetBits, Stripped, BitsOf;
  }

  lemma UnitClean(header: byte, s: ParameterSet, rest: seq<bit>)
    requires |SetBits(s, rest)| % 8 == 0
    ensures AnnexB.Clean(Unit(header, s, rest))
  {
    EscapedGuarded([header] + BytesOf(SetBits(s, rest)), 0);
  }
}