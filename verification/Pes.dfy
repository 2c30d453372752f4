/**
  The PES packetiser of libmpeg/pes.go: the header built by `Remain`, and the
  two-cursor partial writes of `Marshal`, which together read one byte sequence,
  header then data, from front to back.
 */
module Pes {
  import opened Bytes

  /** An append-only writer whose writes are always complete. */
  class EasyWriter {
    var written: seq<byte>

    constructor ()
      ensures written == []
    {
      written := [];
    }

    method WriteFull(b: seq<byte>)
      modifies this
      ensures written == old(written) + b
    {
      written := written + b;
    }
  }

  /** Stream ids whose PES packet has no optional header (ISO/IEC 13818-1 Table 2-18). */
  predicate NoOptionalHeader(streamID: byte) {
    streamID == 0xbc || streamID == 0xbe || streamID == 0xbf || streamID == 0xf0
    || streamID == 0xf1 || streamID == 0xff || streamID == 0xf2 || streamID == 0xf8
  }

  /** A 33-bit time in five bytes: three, eight, seven, eight and seven bits, a marker bit after each group. */
  function Stamp(prefix: byte, t: u64): (b: seq<byte>)
    requires prefix % 0x10 == 1 && prefix < 0xf0
    ensures |b| == 5
  {
    [prefix + (t / 0x4000_0000 % 8) * 2,
     U8(t / 0x40_0000),
     (t / 0x8000 % 0x80) * 2 + 1,
     U8(t / 0x80),
     (t % 0x80) * 2 + 1]
  }

  function LengthField(pts: u64, dts: u64, n: nat): u16 {
    var size := n + 5 + 3 + if pts != dts then 5 else 0;
    if size > 0xffff then 0 else size
  }

  function Header(startCodePrefix: u32, streamID: byte, pts: u64, dts: u64, n: nat): (h: seq<byte>)
    ensures 6 <= |h| <= 19
  {
    var fixed := Put24(startCodePrefix) + [streamID] + Put16(LengthField(pts, dts, n));
    if NoOptionalHeader(streamID) then fixed
    else if pts == dts then fixed + [0x80] + [0x80, 0x05] + Stamp(0x21, pts)
    else fixed + [0x80] + [0xc0, 0x0a] + Stamp(0x31, pts) + Stamp(0x11, dts)
  }

  class PES {
    var startCodePrefix: u32
    var streamID: byte
    var streamType: byte
    var packetLength: u16
    var pts: u64
    var dts: u64
    var data: seq<byte>
    var index: nat
    var headerData: seq<byte>
    var headerIndex: nat

    constructor (streamID: byte, streamType: byte)
      ensures Valid() && Position() == 0
      ensures startCodePrefix == 1 && this.streamID == streamID && this.streamType == streamType
    {
      startCodePrefix := 1;
      this.streamID := streamID;
      this.streamType := streamType;
      packetLength := 0;
      pts, dts := 0, 0;
      data, headerData := [], [];
      index, headerIndex := 0, 0;
    }

    /** What the caller set and no method here changes. */
    ghost function Source(): (u32, byte, byte, u64, u64, seq<byte>)
      reads `startCodePrefix, `streamID, `streamType, `pts, `dts, `data
    {
      (startCodePrefix, streamID, streamType, pts, dts, data)
    }

    ghost function HeaderNow(): seq<byte>
      reads `startCodePrefix, `streamID, `pts, `dts, `data
    {
      Header(startCodePrefix, streamID, pts, dts, |data|)
    }

    /** The data is read only behind the whole header, and a header in use is the current one. */
    ghost predicate Valid()
      reads this
    {
      && index <= |data|
      && headerIndex <= |headerData|
      && (index > 0 ==> headerIndex == |headerData|)
      && (headerIndex > 0 || index > 0 ==> headerData == HeaderNow())
    }

    /** `Remain` has been called since the fields were last set. */
    ghost predicate Prepared()
      reads this
    {
      headerData == HeaderNow()
    }

    /** What the two cursors together have passed. */
    ghost function Position(): nat
      reads this
    {
      headerIndex + index
    }

    ghost function Unit(): seq<byte>
      reads this
    {
      headerData + data
    }

    /** The number of bytes still to write; before the first data byte it also rebuilds the header. */
    method Remain() returns (r: nat)
      requires Valid()
      modifies this`headerData, this`packetLength
      ensures Valid() && Position() == old(Position())
      ensures old(index) == 0 ==> Prepared() && r == |Unit()|
      ensures old(index) > 0 ==> headerData == old(headerData) && r == |Unit()| - Position()
    {
      hide Stamp, Put24, Put16;
      if index == 0 {
        var size := |data| + 5 + 3;
        if pts != dts {
          size := size + 5;
        }
        if size > 0xffff {
          size := 0;
        }
        packetLength := size;
        var h := Put24(startCodePrefix) + [streamID] + Put16(packetLength);
        if !NoOptionalHeader(streamID) {
          h := h + [0x80];
          if pts == dts {
            h := h + [0x80, 0x05];
            h := h + Stamp(0x21, pts);
          } else {
            h := h + [0xc0, 0x0a];
            h := h + Stamp(0x31, pts);
            h := h + Stamp(0x11, dts);
          }
        }
        headerData := h;
        return |headerData| + |data|;
      }
      return (|headerData| - headerIndex) + (|data| - index);
    }

    /**
      Writes the next bytes of the unit, as many as fit, and says whether the unit is finished.
      A room smaller than the rest of the header is the exception: the header cursor then stays.
     */
    method Marshal(writer: EasyWriter, writable: int) returns (writed: nat, finish: bool, err: bool)
      requires Valid() && Prepared()
      modifies this`headerIndex, this`index, writer
      ensures Valid() && Prepared()
      ensures err <==> writable <= 0
      ensures err ==> writed == 0 && !finish && Position() == old(Position()) && writer.written == old(writer.written)
      ensures 0 < writable < |headerData| - old(headerIndex) ==>
                && writed == writable && !finish && Position() == old(Position())
                && writer.written == old(writer.written) + headerData[old(headerIndex)..old(headerIndex) + writable]
      ensures !err && |headerData| - old(headerIndex) <= writable ==>
                && Taken(old(Unit()), old(Position()), writable, writed, finish)
                && writer.written == old(writer.written) + old(Unit())[old(Position())..old(Position()) + writed]
                && Position() == old(Position()) + writed
    {
      hide Header, HeaderNow;
      writed, finish, err := 0, false, false;
      if writable <= 0 {
        err := true;
        return;
      }
      ghost var w, hi, di := writer.written, headerIndex, index;
      if headerIndex < |headerData| {
        if writable - writed >= |headerData| - headerIndex {
          writer.WriteFull(headerData[headerIndex..]);
          writed := writed + |headerData| - headerIndex;
          headerIndex := |headerData|;
        } else {
          writer.WriteFull(headerData[headerIndex..headerIndex + (writable - writed)]);
          writed := writed + (writable - writed);
          finish := false;
          return;
        }
      } else {
        assert w + headerData[hi..] == w;
      }
      TwoPieces(w, headerData, data, hi, di, Min(writable - writed, |data| - di));
      var n;
      n, finish := MarshalData(writer, writable - writed);
      writed := writed + n;
    }

    /** The data part of `Marshal`. */
    method MarshalData(writer: EasyWriter, room: nat) returns (n: nat, finish: bool)
      requires index <= |data|
      modifies this`index, writer
      ensures n == Min(room, |data| - old(index)) && index == old(index) + n
      ensures writer.written == old(writer.written) + data[old(index)..index]
      ensures finish <==> index == |data|
    {
      n := 0;
      if index < |data| {
        if room >= |data| - index {
          writer.WriteFull(data[index..]);
          n := |data| - index;
          index := |data|;
          return n, true;
        } else {
          writer.WriteFull(data[index..index + room]);
          index := index + room;
          return room, false;
        }
      }
      return n, true;
    }
  }

  /** Past the header from hi and n data bytes from di is one slice of header and data together. */
  lemma TwoPieces(w: seq<byte>, h: seq<byte>, d: seq<byte>, hi: nat, di: nat, n: nat)
    requires hi <= |h| && di + n <= |d| && (di > 0 ==> hi == |h|)
    ensures (w + h[hi..]) + d[di..di + n] == w + (h + d)[hi + di..|h| + di + n]
    ensures n == |d| - di ==> d[di..] == d[di..di + n]
    ensures n == 0 ==> (w + h[hi..]) + d[di..di + n] == w + h[hi..]
  {}

  /** As much of u from p on as fits into the room; finished when nothing of u is left. */
  predicate Taken(u: seq<byte>, p: nat, room: int, n: nat, finish: bool) {
    && p + n <= |u|
    && n == Min(room, |u| - p)
    && (finish <==> p + n == |u|)
  }

  function Min(a: int, b: int): int {
    if a < b then a else b
  }
}
