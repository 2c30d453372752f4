/**
  The clock that the multiplexer puts in front of key frames, read back from the packets by an
  adaptation-field reader after ISO/IEC 13818-1 sections 2.4.3.2 to 2.4.3.5.
 */
module TsClock {
  import opened Bytes
  import opened Psi
  import opened TsMux
  import opened TsRoundTrip
  import opened TsSegment
  import opened TsUnit
  import opened Wrappers

  /** A program clock reference: 33 bits at 90 kHz and nine bits at 27 MHz. */
  datatype Clock = Clock(base: nat, extension: nat)

  /** The indicators and flags of the field, its clock, and what follows the fields these flags announce. */
  datatype Field = Field(
    discontinuity: bool, randomAccess: bool, priority: bool, opcr: bool, splicingPoint: bool,
    privateData: bool, extension: bool, clock: Option<Clock>, rest: seq<byte>)

  datatype FieldRead = Absent | Malformed | Present(field: Field)

  /** 33 bits of base, six reserved, nine of extension. */
  function ReadClock(b: seq<byte>): Clock
    requires |b| >= 6
  {
    Clock((((b[0] as int * 0x100 + b[1] as int) * 0x100 + b[2] as int) * 0x100 + b[3] as int) * 2 + b[4] as int / 0x80,
          b[4] as int % 2 * 0x100 + b[5] as int)
  }

  /** Flags from the highest bit down; a clock, when there is one, is the first of the optional fields. */
  function ReadFlags(flags: byte, body: seq<byte>): FieldRead {
    var clocked := flags / 0x10 % 2 == 1;
    if clocked && |body| < 6 then Malformed
    else
      Present(Field(flags / 0x80 == 1, flags / 0x40 % 2 == 1, flags / 0x20 % 2 == 1, flags / 0x08 % 2 == 1,
                    flags / 0x04 % 2 == 1, flags / 0x02 % 2 == 1, flags % 2 == 1,
                    if clocked then Some(ReadClock(body)) else None,
                    if clocked then body[6..] else body))
  }

  function ReadField(pkt: seq<byte>): FieldRead
    requires |pkt| == 188
  {
    var control := pkt[3] / 0x10 % 4;
    if control < 2 then Absent
    else
      var length := pkt[4] as int;
      if 5 + length > 188 then Malformed
      else if length == 0 then Absent
      else ReadFlags(pkt[5], pkt[6..5 + length])
  }

  predicate Stuffing(b: seq<byte>) {
    forall i :: 0 <= i < |b| ==> b[i] == 0xff
  }

  /** The sync byte, no error, no priority, not scrambled, and something behind the header. */
  predicate PlainHeader(pkt: seq<byte>) {
    && |pkt| == 188 && pkt[0] == 0x47
    && pkt[1] / 0x80 == 0 && pkt[1] / 0x20 % 2 == 0 && pkt[3] / 0x40 == 0 && pkt[3] / 0x10 % 4 != 0
  }

  /** A field that may start a random access and says the time, and nothing else. */
  predicate StartsAt(pkt: seq<byte>, time: u64)
    requires |pkt| == 188
  {
    var r := ReadField(pkt);
    && r.Present? && Stuffing(r.field.rest)
    && r.field == Field(false, true, false, false, false, false, false, Some(Clock(time % 0x2_0000_0000, 0)), r.field.rest)
  }

  /** No field, or one that says nothing. */
  predicate Silent(pkt: seq<byte>)
    requires |pkt| == 188
  {
    var r := ReadField(pkt);
    || r == Absent
    || (r.Present? && Stuffing(r.field.rest)
        && r.field == Field(false, false, false, false, false, false, false, None, r.field.rest))
  }

  // ----- One packet -----

  lemma ClockBits(t: u64)
    ensures
      ReadClock(PcrBytes(t, 0)) == Clock(t % 0x2_0000_0000, 0)
  {
    var a0 := t / 2;
    var a1 := a0 / 0x100;
    var a2 := a1 / 0x100;
    var a3 := a2 / 0x100;
    Shifts(t, a0, a1, a2, a3);
    ClockSum(t, a0, a1, a2, a3, a3 / 0x100, t % 2, a0 % 0x100, a1 % 0x100, a2 % 0x100, a3 % 0x100);
    LastBits(t % 2);
    hide U8;
    var b := PcrBytes(t, 0);
    assert b[0] == a3 % 0x100 && b[1] == a2 % 0x100 && b[2] == a1 % 0x100 && b[3] == a0 % 0x100;
    assert b[4] == t % 2 * 0x80 + 0x7e && b[5] == 0;
  }

  lemma Shifts(t: int, a0: int, a1: int, a2: int, a3: int)
    requires 0 <= t && a0 == t / 2 && a1 == a0 / 0x100 && a2 == a1 / 0x100 && a3 == a2 / 0x100
    ensures U8(t / 2) == a0 % 0x100 && U8(t / 0x200) == a1 % 0x100
    ensures U8(t / 0x2_0000) == a2 % 0x100 && U8(t / 0x200_0000) == a3 % 0x100 && U8(0) == 0
  {}

  lemma LastBits(bit: int)
    requires 0 <= bit < 2
    ensures (bit * 0x80 + 0x7e) / 0x80 == bit && (bit * 0x80 + 0x7e) % 2 == 0
  {}

  lemma ClockSum(t: int, a0: int, a1: int, a2: int, a3: int, q: int, r0: int, r1: int, r2: int, r3: int, r4: int)
    requires t == a0 * 2 + r0 && a0 == a1 * 0x100 + r1 && a1 == a2 * 0x100 + r2 && a2 == a3 * 0x100 + r3 && a3 == q * 0x100 + r4
    requires 0 <= r0 < 2 && 0 <= r1 < 0x100 && 0 <= r2 < 0x100 && 0 <= r3 < 0x100 && 0 <= r4 < 0x100
    ensures (((r4 * 0x100 + r3) * 0x100 + r2) * 0x100 + r1) * 2 + r0 == t % 0x2_0000_0000
  {
    assert t == q * 0x2_0000_0000 + ((((r4 * 0x100 + r3) * 0x100 + r2) * 0x100 + r1) * 2 + r0);
  }

  lemma NextBit(bits: seq<byte>, bit: byte)
    requires |bits| < 8
    ensures Octet(bits + [bit]) == Octet(bits) * 2 + bit % 2
  {
    assert (bits + [bit])[..|bits|] == bits;
  }

  lemma Flags(randomAccess: byte, clock: byte)
    requires randomAccess < 2 && clock < 2
    ensures Octet([0, randomAccess, 0, clock, 0, 0, 0, 0]) == randomAccess * 0x40 + clock * 0x10
  {
    hide Octet;
    assert Octet([]) == 0 by { NoBits(); }
    NextBit([], 0);
    NextBit([0], randomAccess);
    NextBit([0, randomAccess], 0);
    NextBit([0, randomAccess, 0], clock);
    assert [] + [0] == [0] && [0] + [randomAccess] == [0, randomAccess];
    assert [0, randomAccess] + [0] == [0, randomAccess, 0] && [0, randomAccess, 0] + [clock] == [0, randomAccess, 0, clock];
    var indicators: seq<byte> := [0, randomAccess, 0, clock];
    ZeroBits(indicators);
    assert indicators + [0, 0, 0, 0] == [0, randomAccess, 0, clock, 0, 0, 0, 0];
  }

  lemma ZeroBits(bits: seq<byte>)
    requires |bits| == 4
    ensures Octet(bits + [0, 0, 0, 0]) == Octet(bits) * 0x10
  {
    hide Octet;
    NextBit(bits, 0);
    NextBit(bits + [0], 0);
    NextBit(bits + [0, 0], 0);
    NextBit(bits + [0, 0, 0], 0);
    assert bits + [0] + [0] == bits + [0, 0] && bits + [0, 0] + [0] == bits + [0, 0, 0];
    assert bits + [0, 0, 0] + [0] == bits + [0, 0, 0, 0];
  }

  lemma NoBits()
    ensures Octet([]) == 0
  {}

  /** A written field is read from its flag byte and what is behind it. */
  lemma FieldLaid(h: seq<byte>, af: AdaptationField, rest: seq<byte>)
    requires |h| == 4 && h[3] / 0x10 % 4 == 3 && FieldBytes(af).Some?
    requires |h| + |FieldBytes(af).value| + |rest| == 188
    ensures ReadField(h + FieldBytes(af).value + rest) == ReadFlags(FlagByte(af), FieldBytes(af).value[2..])
  {
    hide FlagByte, PcrBytes, ReadFlags;
    var field := FieldBytes(af).value;
    var pkt := h + field + rest;
    assert pkt[3] == h[3] && pkt[4] == field[0] == af.length && pkt[5] == field[1] == FlagByte(af);
    assert pkt[6..5 + af.length as int] == field[2..];
  }

  /** The field of the first packet of a key frame, whatever its length. */
  lemma ClockField(length: byte, time: u64)
    requires 7 <= length
    ensures
      var af := NO_FIELD.(length := length, randomAccess := 1, pcrFlag := 1, pcrBase := time);
      && FieldBytes(af).Some?
      && var r := ReadFlags(FlagByte(af), FieldBytes(af).value[2..]);
      && r.Present? && Stuffing(r.field.rest)
      && r.field == Field(false, true, false, false, false, false, false, Some(Clock(time % 0x2_0000_0000, 0)), r.field.rest)
  {
    Flags(1, 1);
    ClockBits(time);
    hide Octet, PcrBytes, ReadClock;
    var af := NO_FIELD.(length := length, randomAccess := 1, pcrFlag := 1, pcrBase := time);
    assert FlagByte(af) == 0x50;
    var clock, pad := PcrBytes(time, 0), Repeat(0xff, length - 7);
    assert FieldBytes(af).Some? && FieldBytes(af).value[2..] == clock + pad;
    hide FlagByte, FieldBytes;
    assert (clock + pad)[6..] == pad;
    FirstSix(clock, pad);
    ClockFlags(clock + pad);
  }

  lemma ClockFlags(body: seq<byte>)
    requires |body| >= 6
    ensures ReadFlags(0x50, body) == Present(Field(false, true, false, false, false, false, false, Some(ReadClock(body)), body[6..]))
  {
    hide ReadClock;
  }

  lemma FirstSix(clock: seq<byte>, pad: seq<byte>)
    requires |clock| == 6
    ensures ReadClock(clock + pad) == ReadClock(clock)
  {}

  lemma SilentField(length: byte)
    requires 1 <= length
    ensures
      var af := NO_FIELD.(length := length);
      && FieldBytes(af).Some?
      && var r := ReadFlags(FlagByte(af), FieldBytes(af).value[2..]);
      && r.Present? && Stuffing(r.field.rest)
      && r.field == Field(false, false, false, false, false, false, false, None, r.field.rest)
  {
    Flags(0, 0);
    hide Octet, PcrBytes, ReadClock;
    var af := NO_FIELD.(length := length);
    assert FlagByte(af) == 0;
    assert FieldBytes(af).value[2..] == Repeat(0xff, length - 1);
  }

  /** Any packet that goes right: the first of a key frame says the time, every other says nothing. */
  lemma CutClock(pid: u16, start: bool, cc: byte, key: bool, dts: u64, u: seq<byte>, p: nat)
    requires Media(pid) && p <= |u|
    requires !CutAt(pid, start, cc, key, dts, u, p, |u| - p).err
    ensures
      var pkt := CutAt(pid, start, cc, key, dts, u, p, |u| - p).packet;
      PlainHeader(pkt) && if key then StartsAt(pkt, dts) else Silent(pkt)
  {
    hide FieldBytes, FlagByte, ReadField, PacketHeader, Packet;
    var remain := |u| - p;
    var a := Attached(pid, key, dts, remain);
    var c := CutAt(pid, start, cc, key, dts, u, p, remain);
    var h := PacketHeader(pid, start, a.0, cc);
    var front := Front(pid, start, cc, key, dts, remain);
    var payload := u[p..p + c.taken];
    var rest := payload + Repeat(0xff, 188 - |front| - c.taken);
    HeaderLaid(pid, start, a.0, cc);
    assert front == h + FieldPart(a);
    PacketIs(front, payload);
    Regroup(h, FieldPart(a), rest);
    HeaderKept(h, FieldPart(a) + rest);
    if a.0 == 3 {
      var af := a.1.value;
      assert FieldBytes(af).Some? && FieldPart(a) == FieldBytes(af).value;
      FieldLaid(h, af, rest);
      if key {
        ClockField(af.length, dts);
      } else {
        SilentField(af.length);
      }
    } else {
      NoFieldRead(c.packet);
    }
  }

  lemma HeaderLaid(pid: u16, start: bool, control: byte, cc: byte)
    requires control == 1 || control == 3
    ensures
      var h := PacketHeader(pid, start, control, cc);
      && h[1] / 0x80 == 0 && h[1] / 0x20 % 2 == 0 && h[3] / 0x40 == 0 && h[3] / 0x10 % 4 == control
  {}

  lemma HeaderKept(h: seq<byte>, rest: seq<byte>)
    requires |h| == 4 && |h| + |rest| == 188 && h[0] == 0x47
    requires h[1] / 0x80 == 0 && h[1] / 0x20 % 2 == 0 && h[3] / 0x40 == 0 && h[3] / 0x10 % 4 != 0
    ensures PlainHeader(h + rest) && (h + rest)[3] == h[3]
  {}

  lemma PacketIs(front: seq<byte>, payload: seq<byte>)
    requires |front| + |payload| <= 188
    ensures Packet(front, payload) == front + (payload + Repeat(0xff, 188 - |front| - |payload|))
  {}

  lemma NoFieldRead(pkt: seq<byte>)
    requires |pkt| == 188 && pkt[3] / 0x10 % 4 == 1
    ensures ReadField(pkt) == Absent
  {}

  // ----- Units and tables -----

  /**
    The packets of a unit that goes right: the first of a key frame may start a random access and says
    its decoding time modulo 2^33, and no other packet says any time.
   */
  lemma {:induction false} RunClock(pid: u16, cc: byte, start: bool, key: bool, dts: u64, u: seq<byte>, p: nat)
    requires Media(pid) && p <= |u| && MuxRun(pid, cc, start, key, dts, u, p).ok
    ensures
      var ps := MuxRun(pid, cc, start, key, dts, u, p).packets;
      && ps != []
      && forall i :: 0 <= i < |ps| ==>
           PlainHeader(ps[i]) && if i == 0 && start && key then StartsAt(ps[i], dts) else Silent(ps[i])
    decreases |u| - p
  {
    hide CutAt, MuxRun, PlainHeader, StartsAt, Silent;
    var c := CutAt(pid, start, cc, key && start, dts, u, p, |u| - p);
    RunStep(pid, cc, start, key, dts, u, p);
    CutClock(pid, start, cc, key && start, dts, u, p);
    if !c.finish {
      RunClock(pid, (cc + 1) % 0x10, false, key, dts, u, p + c.taken);
    }
  }

  /** The packets of an item as it is written: only those of key frames say a time, tables have no field. */
  lemma ItemClock(it: Item, cc: map<u16, byte>)
    requires Proper(it)
    requires it.Unit? ==> MuxRun(it.pid, CounterOf(cc, it.pid), true, it.key, it.dts, UnitBytes(it), 0).ok
    ensures
      var ps := ItemPackets(it, cc);
      && ps != []
      && forall i :: 0 <= i < |ps| ==>
           PlainHeader(ps[i]) && if i == 0 && it.Unit? && it.key then StartsAt(ps[i], it.dts) else Silent(ps[i])
  {
    match it
    case Tables(videoType, order) =>
      SectionClock(PAT_PID, CounterOf(cc, PAT_PID), PatSection(SEGMENT_PAT, [PMT_PID]));
      SectionClock(PMT_PID, CounterOf(cc, PMT_PID), PmtSection(SegmentPmt(videoType), order));
    case Unit(pid, key, _, _, dts, _) =>
      RunClock(pid, CounterOf(cc, pid), true, key, dts, UnitBytes(it), 0);
  }

  lemma SectionClock(pid: u16, cc: byte, section: seq<byte>)
    requires pid == PAT_PID || pid == PMT_PID
    ensures
      var pkt := SectionCut(pid, true, cc, false, 0, section).packet;
      PlainHeader(pkt) && ReadField(pkt) == Absent
  {
    hide ReadField, PacketHeader, Packet;
    var h := PacketHeader(pid, true, 1, cc);
    var front := Front(pid, true, cc, false, 0, |section|);
    var c := SectionCut(pid, true, cc, false, 0, section);
    var payload := if 188 - |front| < |section| then [] else section;
    assert front == h + [0];
    HeaderLaid(pid, true, 1, cc);
    PacketIs(front, payload);
    Regroup(h, [0], payload + Repeat(0xff, 188 - |front| - |payload|));
    HeaderKept(h, [0] + (payload + Repeat(0xff, 188 - |front| - |payload|)));
    NoFieldRead(c.packet);
  }
}
