/**
  What the multiplexer of libmpeg writes, the demultiplexer of libsrt reads back: one
  PES unit, and exactly which units; then whole streams and segments of them.
 */
module TsRoundTrip {
  import opened Bytes
  import Pes
  import opened TsMux
  import opened TsUnit
  import D = TsDemux
  import opened Wrappers

  // ----- One packet -----

  /** A packet is a 188-byte frame with a sync byte. */
  predicate Framed(pkt: seq<byte>) {
    |pkt| == 188 && pkt[0] == 0x47
  }

  lemma FieldHead(pid: u16, key: bool, dts: u64, remain: nat)
    requires Media(pid)
    ensures
      var a := Attached(pid, key, dts, remain);
      && (a.0 == 1 || a.0 == 3)
      && (a.0 == 1 ==> FieldPart(a) == [])
      && (a.0 == 3 && !FieldRejected(a) ==> |FieldPart(a)| > 0 && |FieldPart(a)| == FieldPart(a)[0] + 1)
  {
    hide FieldBytes;
  }

  /** A media packet starts with a header that says its PID, its start flag and how long its field is. */
  lemma FrontHead(pid: u16, start: bool, cc: byte, key: bool, dts: u64, remain: nat)
    requires Media(pid)
    ensures
      var f := Front(pid, start, cc, key, dts, remain);
      && f[1] as int % 0x20 * 0x100 + f[2] as int == pid && (f[1] / 0x40 % 2 == 1 <==> start)
      && f[3] % 0x10 == cc % 0x10
      && (!FieldRejected(Attached(pid, key, dts, remain)) ==>
            || (f[3] / 0x10 % 4 == 1 && |f| == 4)
            || (f[3] / 0x10 % 4 == 3 && |f| > 4 && |f| == 5 + f[4] as int))
  {
    hide FieldPart, FieldRejected, Attached;
    FieldHead(pid, key, dts, remain);
    var a := Attached(pid, key, dts, remain);
    var h := PacketHeader(pid, start, a.0, cc);
    var f := Front(pid, start, cc, key, dts, remain);
    assert f == h + FieldPart(a);
    HeaderFields(pid, start, a.0, cc);
  }

  lemma HeaderFields(pid: u16, start: bool, control: byte, cc: byte)
    requires pid < 0x2000 && (control == 1 || control == 3)
    ensures
      var h := PacketHeader(pid, start, control, cc);
      && h[1] as int % 0x20 * 0x100 + h[2] as int == pid && (h[1] / 0x40 % 2 == 1 <==> start)
      && h[3] % 0x10 == cc % 0x10 && h[3] / 0x10 % 4 == control
  {}

  lemma ReadBehind(f: seq<byte>, rest: seq<byte>)
    requires |f| + |rest| == 188 && |f| >= 4
    requires (f[3] / 0x10 % 4 == 1 && |f| == 4) || (f[3] / 0x10 % 4 == 3 && |f| > 4 && |f| == 5 + f[4] as int)
    ensures D.PayloadOf(f + rest) == Some(rest)
  {
    var pkt := f + rest;
    assert pkt[3] == f[3];
    assert pkt[|f|..] == rest;
  }

  /** The demultiplexer finds what was put in, with the stuffing that was put behind it. */
  lemma CutRead(pid: u16, start: bool, cc: byte, key: bool, dts: u64, u: seq<byte>, p: nat)
    requires Media(pid) && p <= |u|
    ensures
      var c := CutAt(pid, start, cc, key, dts, u, p, |u| - p);
      && Framed(c.packet) && D.PidOf(c.packet) == pid && (D.StartOf(c.packet) <==> start)
      && c.packet[3] % 0x10 == cc % 0x10
      && (!c.err ==> D.PayloadOf(c.packet)
                     == Some(u[p..p + c.taken] + Repeat(0xff, Room(key, |u| - p) - c.taken)))
  {
    hide Front, FieldRejected, Attached, Room;
    var c := CutAt(pid, start, cc, key, dts, u, p, |u| - p);
    var f := Front(pid, start, cc, key, dts, |u| - p);
    FrontHead(pid, start, cc, key, dts, |u| - p);
    FrontSize(pid, start, cc, key, dts, |u| - p);
    RoomTaken(pid, start, cc, key, dts, u, p);
    var rest := u[p..p + c.taken] + Repeat(0xff, 188 - |f| - c.taken);
    assert c.packet == f + rest;
    if !c.err {
      ReadBehind(f, rest);
    }
  }

  // ----- One unit -----

  predicate AllFramed(ps: seq<seq<byte>>) {
    forall i :: 0 <= i < |ps| ==> Framed(ps[i])
  }

  /** All that the demultiplexer finds in the packets, end to end. */
  function Payloads(ps: seq<seq<byte>>): seq<byte>
    requires AllFramed(ps)
  {
    if ps == [] then []
    else (var b := D.PayloadOf(ps[0]); if b.Some? then b.value else []) + Payloads(ps[1..])
  }

  /** Every packet is a frame of the unit's PID with the next counter; only the first has the start flag. */
  predicate Numbered(ps: seq<seq<byte>>, pid: u16, cc: byte, start: bool) {
    && AllFramed(ps)
    && forall i :: 0 <= i < |ps| ==>
         && D.PidOf(ps[i]) == pid && (D.StartOf(ps[i]) <==> start && i == 0)
         && ps[i][3] % 0x10 == (cc + i) % 0x10
  }

  lemma NumberedNone(pid: u16, cc: byte)
    ensures Numbered([], pid, cc, false)
  {}

  lemma NumberedFirst(pkt: seq<byte>, rest: seq<seq<byte>>, pid: u16, cc: byte, start: bool)
    requires Framed(pkt) && D.PidOf(pkt) == pid && (D.StartOf(pkt) <==> start) && pkt[3] % 0x10 == cc % 0x10
    requires Numbered(rest, pid, (cc + 1) % 0x10, false)
    ensures Numbered([pkt] + rest, pid, cc, start)
  {
    hide D.PidOf, D.StartOf;
    var ps := [pkt] + rest;
    forall i | 0 <= i < |ps|
      ensures Framed(ps[i]) && D.PidOf(ps[i]) == pid && (D.StartOf(ps[i]) <==> start && i == 0)
      ensures ps[i][3] % 0x10 == (cc + i) % 0x10
    {
      if i > 0 {
        assert ps[i] == rest[i - 1];
        NextCounter(cc, i);
      }
    }
  }

  lemma NextCounter(cc: byte, i: nat)
    requires i > 0
    ensures ((cc + 1) % 0x10 + (i - 1)) % 0x10 == (cc + i) % 0x10
  {}

  lemma {:induction false} RunNumbered(pid: u16, cc: byte, start: bool, key: bool, dts: u64, u: seq<byte>, p: nat)
    requires Media(pid) && p <= |u|
    ensures
      var r := MuxRun(pid, cc, start, key, dts, u, p);
      |r.packets| > 0 && Numbered(r.packets, pid, cc, start)
    decreases |u| - p
  {
    hide CutAt, D.PidOf, D.StartOf, Numbered;
    var c := CutAt(pid, start, cc, key && start, dts, u, p, |u| - p);
    CutRead(pid, start, cc, key && start, dts, u, p);
    RoomTaken(pid, start, cc, key && start, dts, u, p);
    if !c.err && !c.finish {
      RunNumbered(pid, (cc + 1) % 0x10, false, key, dts, u, p + c.taken);
      NumberedFirst(c.packet, MuxRun(pid, (cc + 1) % 0x10, false, key, dts, u, p + c.taken).packets, pid, cc, start);
    } else {
      NumberedNone(pid, (cc + 1) % 0x10);
      NumberedFirst(c.packet, [], pid, cc, start);
      assert [c.packet] + [] == [c.packet];
    }
  }

  lemma PayloadsFirst(pkt: seq<byte>, rest: seq<seq<byte>>, b: seq<byte>)
    requires Framed(pkt) && AllFramed(rest) && D.PayloadOf(pkt) == Some(b)
    ensures AllFramed([pkt] + rest) && Payloads([pkt] + rest) == b + Payloads(rest)
  {
    assert ([pkt] + rest)[1..] == rest;
  }

  /** A packet without error holds the next bytes; only a short key frame gets stuffing behind it. */
  lemma CutClean(pid: u16, start: bool, cc: byte, key: bool, dts: u64, u: seq<byte>, p: nat)
    requires Media(pid) && p < |u|
    ensures
      var c := CutAt(pid, start, cc, key, dts, u, p, |u| - p);
      var left := |u| - p;
      && Framed(c.packet)
      && (c.err <==> if key then 168 < left < 176 else left == 183)
      && (key && left <= 168 ==> c.finish && D.PayloadOf(c.packet) == Some(u[p..] + Repeat(0xff, 8)))
      && (key && left >= 176 ==>
            && c.taken == 176 && (c.finish <==> left == 176) && D.PayloadOf(c.packet) == Some(u[p..p + 176]))
      && (!key && left >= 184 ==>
            && c.taken == 184 && (c.finish <==> left == 184) && D.PayloadOf(c.packet) == Some(u[p..p + 184]))
      && (!key && left < 183 ==> c.finish && D.PayloadOf(c.packet) == Some(u[p..]))
  {
    hide CutAt, D.PayloadOf;
    var c := CutAt(pid, start, cc, key, dts, u, p, |u| - p);
    CutErr(pid, start, cc, key, dts, u, p);
    CutRead(pid, start, cc, key, dts, u, p);
    RoomTaken(pid, start, cc, key, dts, u, p);
    assert u[p..p + c.taken] + Repeat(0xff, 0) == u[p..p + c.taken];
    if c.taken == |u| - p {
      assert u[p..p + c.taken] == u[p..];
    }
  }

  /** Without a clock reference: the last packet may not lack exactly one byte. */
  lemma {:induction false} PlainRun(pid: u16, cc: byte, start: bool, key: bool, dts: u64, u: seq<byte>, p: nat)
    requires Media(pid) && p < |u| && !(key && start)
    ensures
      var r := MuxRun(pid, cc, start, key, dts, u, p);
      && AllFramed(r.packets)
      && (r.ok <==> (|u| - p) % 184 != 183)
      && (r.ok ==> Payloads(r.packets) == u[p..] && |r.packets| == (|u| - p + 183) / 184)
    decreases |u| - p
  {
    hide *;
    var c := CutAt(pid, start, cc, false, dts, u, p, |u| - p);
    CutClean(pid, start, cc, false, dts, u, p);
    RunStep(pid, cc, start, key, dts, u, p);
    if c.err {
      OneFramed(c.packet);
    } else if c.finish {
      assert |u| - p == 184 ==> u[p..] == u[p..p + 184];
      OneFramed(c.packet);
      LastPayload(c.packet, u[p..]);
    } else {
      PlainRun(pid, (cc + 1) % 0x10, false, key, dts, u, p + 184);
      var r := MuxRun(pid, (cc + 1) % 0x10, false, key, dts, u, p + 184);
      PayloadsFirst(c.packet, r.packets, u[p..p + 184]);
      assert u[p..p + 184] + u[p + 184..] == u[p..];
    }
  }

  lemma OneFramed(pkt: seq<byte>)
    requires Framed(pkt)
    ensures AllFramed([pkt])
  {}

  lemma LastPayload(pkt: seq<byte>, b: seq<byte>)
    requires Framed(pkt) && D.PayloadOf(pkt) == Some(b)
    ensures Payloads([pkt]) == b
  {
    hide D.PayloadOf;
    assert b + [] == b;
  }

  lemma CutErr(pid: u16, start: bool, cc: byte, key: bool, dts: u64, u: seq<byte>, p: nat)
    requires Media(pid) && p < |u|
    ensures CutAt(pid, start, cc, key, dts, u, p, |u| - p).err <==> if key then 168 < |u| - p < 176 else |u| - p == 183
  {
    hide Front, FieldRejected, Attached, Packet;
    FrontSize(pid, start, cc, key, dts, |u| - p);
  }

  /** The lengths of header and data together that survive. */
  predicate InDomain(key: bool, n: nat) {
    if key then n >= 176 && n % 184 != 175 else n % 184 != 183
  }

  /**
    The packets carry the unit and nothing else exactly when its length is in the domain. Outside it the
    loop gives up on the unit or, for a key frame of less than 169 bytes, eight stuffing bytes follow it.
   */
  lemma UnitExact(pid: u16, cc: byte, key: bool, dts: u64, u: seq<byte>)
    requires Media(pid) && |u| > 0
    ensures
      var r := MuxRun(pid, cc, true, key, dts, u, 0);
      && AllFramed(r.packets)
      && (r.ok && Payloads(r.packets) == u <==> InDomain(key, |u|))
      && (InDomain(key, |u|) ==> |r.packets| == (|u| + (if key then 8 else 0) + 183) / 184)
      && (key && |u| <= 168 ==> r.ok && Payloads(r.packets) == u + Repeat(0xff, 8))
  {
    hide CutAt, Framed, Payloads, AllFramed, MuxRun, D.PayloadOf;
    assert u[0..] == u;
    if !key {
      PlainRun(pid, cc, true, key, dts, u, 0);
    } else {
      var c := CutAt(pid, true, cc, true, dts, u, 0, |u|);
      CutClean(pid, true, cc, true, dts, u, 0);
      RunStep(pid, cc, true, true, dts, u, 0);
      if c.err {
        OneFramed(c.packet);
      } else if c.finish {
        assert |u| == 176 ==> u[0..176] == u;
        OneFramed(c.packet);
        LastPayload(c.packet, if |u| == 176 then u else u + Repeat(0xff, 8));
      } else {
        PlainRun(pid, (cc + 1) % 0x10, false, key, dts, u, 176);
        var rest := MuxRun(pid, (cc + 1) % 0x10, false, key, dts, u, 176);
        PayloadsFirst(c.packet, rest.packets, u[0..176]);
        assert u[0..176] + u[176..] == u;
      }
    }
  }

  // ----- The demultiplexer on one unit -----

  lemma {:induction false} StampRead(prefix: byte, t: u64)
    requires prefix % 0x10 == 1 && prefix < 0xf0
    ensures D.ReadPTS(Pes.Stamp(prefix, t)) == t % 0x2_0000_0000
  {
    var a0 := t / 0x80;
    var a1 := a0 / 0x100;
    var a2 := a1 / 0x80;
    var a3 := a2 / 0x100;
    Groups(t, a0, a1, a2, a3);
    FirstGroup(prefix, a3 % 8);
    GroupsSum(t, a0, a1, a2, a3);
    hide U8;
    var b := Pes.Stamp(prefix, t);
    assert b[0] == prefix + a3 % 8 * 2 && b[2] == a1 % 0x80 * 2 + 1 && b[4] == t % 0x80 * 2 + 1;
    assert b[1] == a2 % 0x100 && b[3] == a0 % 0x100;
  }

  lemma Groups(t: int, a0: int, a1: int, a2: int, a3: int)
    requires 0 <= t && a0 == t / 0x80 && a1 == a0 / 0x100 && a2 == a1 / 0x80 && a3 == a2 / 0x100
    ensures t / 0x8000 == a1 && t / 0x40_0000 == a2 && t / 0x4000_0000 == a3
    ensures U8(t / 0x40_0000) == a2 % 0x100 && U8(t / 0x80) == a0 % 0x100
  {}

  lemma FirstGroup(prefix: byte, group: int)
    requires prefix % 0x10 == 1 && 0 <= group < 8
    ensures (prefix + group * 2) / 2 % 8 == group
  {}

  lemma GroupsSum(t: int, a0: int, a1: int, a2: int, a3: int)
    requires 0 <= t && a0 == t / 0x80 && a1 == a0 / 0x100 && a2 == a1 / 0x80 && a3 == a2 / 0x100
    ensures a3 % 8 * 0x4000_0000 + a2 % 0x100 * 0x40_0000 + a1 % 0x80 * 0x8000 + a0 % 0x100 * 0x80 + t % 0x80
            == t % 0x2_0000_0000
  {
    Weighed(t, a0, a1, a2, a3, a3 / 8, t % 0x80, a0 % 0x100, a1 % 0x80, a2 % 0x100, a3 % 8);
  }

  lemma Weighed(t: int, a0: int, a1: int, a2: int, a3: int, q: int, r0: int, r1: int, r2: int, r3: int, r4: int)
    requires t == a0 * 0x80 + r0 && a0 == a1 * 0x100 + r1 && a1 == a2 * 0x80 + r2 && a2 == a3 * 0x100 + r3 && a3 == q * 8 + r4
    requires 0 <= r0 < 0x80 && 0 <= r1 < 0x100 && 0 <= r2 < 0x80 && 0 <= r3 < 0x100 && 0 <= r4 < 8
    ensures r4 * 0x4000_0000 + r3 * 0x40_0000 + r2 * 0x8000 + r1 * 0x80 + r0 == t % 0x2_0000_0000
  {
    assert t == q * 0x2_0000_0000 + (r4 * 0x4000_0000 + r3 * 0x40_0000 + r2 * 0x8000 + r1 * 0x80 + r0);
  }

  /** The prefix of a time, and the marker bit behind each of its groups. */
  predicate Marked(b: seq<byte>, prefix: byte) {
    |b| >= 5 && b[0] / 0x10 == prefix && b[0] % 2 == 1 && b[2] % 2 == 1 && b[4] % 2 == 1
  }

  /** What follows the length field, which is 0 when it does not fit. */
  predicate Length(b: seq<byte>, n: nat)
    requires |b| >= 6
  {
    b[4] as int * 0x100 + b[5] as int == if n <= 0xffff then n else 0
  }

  /**
    The header as ISO/IEC 13818-1 section 2.4.3.6 has it, for streams with the optional fields: fixed bits,
    flags for the times that are there, and both lengths. For the others the length field counts optional
    fields that are not there.
   */
  lemma HeaderWritten(streamID: byte, pts: u64, dts: u64, data: seq<byte>)
    ensures
      var h := Pes.Header(1, streamID, pts, dts, |data|);
      var b := h + data;
      var optional := streamID !in {0xbc, 0xbe, 0xbf, 0xf0, 0xf1, 0xff, 0xf2, 0xf8};
      && |h| == (if !optional then 6 else if pts == dts then 14 else 19)
      && b[..3] == [0, 0, 1] && b[3] == streamID
      && Length(b, |b| - 6 + if optional then 0 else if pts == dts then 8 else 13)
      && (optional ==>
            && b[6] == 0x80 && b[7] == (if pts == dts then 0x80 else 0xc0) && b[8] as int == |h| - 9
            && Marked(b[9..14], if pts == dts then 2 else 3)
            && (pts != dts ==> Marked(b[14..19], 1)))
  {
    hide Put24, Put16, Pes.Stamp;
    var h := Pes.Header(1, streamID, pts, dts, |data|);
    var b := h + data;
    StartCode();
    LengthBytes(Pes.LengthField(pts, dts, |data|));
    var size := Put16(Pes.LengthField(pts, dts, |data|));
    var fixed := Put24(1) + [streamID] + size;
    assert fixed[..3] == [0, 0, 1] && fixed[4] == size[0] && fixed[5] == size[1];
    assert b[..3] == fixed[..3] && b[4] == fixed[4] && b[5] == fixed[5];
    StampMarks(0x21, pts);
    StampMarks(0x31, pts);
    StampMarks(0x11, dts);
    if !Pes.NoOptionalHeader(streamID) {
      assert b[9..14] == Pes.Stamp(if pts == dts then 0x21 else 0x31, pts);
      assert pts != dts ==> b[14..19] == Pes.Stamp(0x11, dts);
    }
  }

  lemma StartCode()
    ensures Put24(1) == [0, 0, 1]
  {}

  lemma LengthBytes(n: u16)
    ensures Put16(n)[0] as int * 0x100 + Put16(n)[1] as int == n
  {}

  lemma StampMarks(prefix: byte, t: u64)
    requires prefix % 0x10 == 1 && prefix < 0xf0
    ensures Marked(Pes.Stamp(prefix, t), prefix / 0x10)
  {}

  /** A header that starts a payload is read back, times modulo 2^33, and what is behind it is the body. */
  lemma HeaderRead(streamID: byte, pts: u64, dts: u64, n: nat, rest: seq<byte>)
    requires !Pes.NoOptionalHeader(streamID)
    ensures D.ParsePESHeader(Pes.Header(1, streamID, pts, dts, n) + rest)
            == Some(D.PesHeader(pts % 0x2_0000_0000, dts % 0x2_0000_0000, rest))
  {
    hide Pes.Stamp, Pes.LengthField, D.ReadPTS;
    var fixed := Put24(1) + [streamID] + Put16(Pes.LengthField(pts, dts, n));
    var b := Pes.Header(1, streamID, pts, dts, n) + rest;
    if pts == dts {
      var stamp := Pes.Stamp(0x21, pts);
      assert b == fixed + [0x80] + [0x80, 0x05] + stamp + rest;
      assert b[7] == 0x80 && b[8] == 5;
      assert b[9..14] == stamp && b[14..] == rest;
      StampRead(0x21, pts);
    } else {
      var stamp, stamp' := Pes.Stamp(0x31, pts), Pes.Stamp(0x11, dts);
      assert b == fixed + [0x80] + [0xc0, 0x0a] + stamp + stamp' + rest;
      assert b[7] == 0xc0 && b[8] == 10;
      assert b[9..14] == stamp && b[14..19] == stamp' && b[19..] == rest;
      StampRead(0x31, pts);
      StampRead(0x11, dts);
    }
  }

  /** Any PES packet, whatever its stream, length and flags and whatever optional fields are behind the times. */
  lemma AnyHeaderRead(streamID: byte, size: u16, marks: byte, flags: byte, fields: seq<byte>, body: seq<byte>)
    requires |fields| < 0x100
    ensures
      var stamps := flags / 0x40;
      D.ParsePESHeader([0, 0, 1, streamID] + Put16(size) + [marks, flags, |fields|] + fields + body)
      == if stamps == 2 then
           if |fields| < 5 then None else Some(D.PesHeader(D.ReadPTS(fields[..5]), D.ReadPTS(fields[..5]), body))
         else if stamps == 3 then
           if |fields| < 10 then None else Some(D.PesHeader(D.ReadPTS(fields[..5]), D.ReadPTS(fields[5..10]), body))
         else Some(D.PesHeader(0, 0, body))
  {
    hide Put16, D.ReadPTS;
    var front := [0, 0, 1, streamID] + Put16(size) + [marks, flags, |fields|];
    var b := front + fields + body;
    assert |front| == 9 && b[..3] == [0, 0, 1] && b[7] == flags && b[8] as int == |fields|;
    assert b[0] == 0 && b[1] == 0 && b[2] == 1 && b[9 + |fields|..] == body;
    if |fields| >= 5 {
      assert b[9..14] == fields[..5];
    }
    if |fields| >= 10 {
      assert b[14..19] == fields[5..10];
    }
  }

  function StepAll(s: D.State, ps: seq<seq<byte>>): Option<D.State>
    requires AllFramed(ps)
    decreases |ps|
  {
    if ps == [] then Some(s)
    else
      var next := D.Step(s, ps[0]);
      if next.None? then None else StepAll(next.value, ps[1..])
  }

  /** Feeding the concatenation of packets is feeding packet by packet. */
  lemma {:induction false} FeedFlat(s: D.State, ps: seq<seq<byte>>)
    requires AllFramed(ps)
    ensures D.FeedAll(s, Flatten(ps)) == StepAll(s, ps)
    decreases |ps|
  {
    hide D.Step;
    if ps == [] {
    } else {
      var buf := Flatten(ps);
      assert buf[..188] == ps[0] && buf[188..] == Flatten(ps[1..]);
      var next := D.Step(s, ps[0]);
      if next.Some? {
        FeedFlat(next.value, ps[1..]);
      }
    }
  }

  lemma {:induction false} StepAllSplit(s: D.State, a: seq<seq<byte>>, b: seq<seq<byte>>)
    requires AllFramed(a) && AllFramed(b)
    ensures AllFramed(a + b)
    ensures StepAll(s, a + b) == if StepAll(s, a).None? then None else StepAll(StepAll(s, a).value, b)
    decreases |a|
  {
    hide D.Step;
    if a == [] {
      assert a + b == b;
    } else {
      assert (a + b)[1..] == a[1..] + b;
      var next := D.Step(s, a[0]);
      if next.Some? {
        StepAllSplit(next.value, a[1..], b);
      }
    }
  }

  /** The tables have been read. */
  predicate Learned(s: D.State) {
    s.pmtPID == PMT_PID && s.videoPID == VIDEO_PID && s.audioPID == AUDIO_PID
  }

  /** The ideal demultiplexer: a unit at a time, one unit late. */
  function Accept(s: D.State, pid: u16, pts: u64, dts: u64, data: seq<byte>): D.State {
    if pid == VIDEO_PID then
      s.(video := D.Partial(data, pts % 0x2_0000_0000, dts % 0x2_0000_0000),
         units := s.units + if |s.video.buf| > 0 then [D.ToAccessUnit(s.video)] else [])
    else
      s.(audio := D.Partial(data, pts % 0x2_0000_0000, 0),
         frames := s.frames + if |s.audio.buf| > 0 then [D.AudioFrame(s.audio.pts, s.audio.buf)] else [])
  }

  function Append(s: D.State, pid: u16, more: seq<byte>): D.State {
    if pid == VIDEO_PID then s.(video := s.video.(buf := s.video.buf + more))
    else s.(audio := s.audio.(buf := s.audio.buf + more, dts := 0))
  }

  /** Packets without a start flag only add to their unit. */
  lemma {:induction false} Continued(s: D.State, ps: seq<seq<byte>>, pid: u16, cc: byte)
    requires Learned(s) && s.audio.dts == 0 && Media(pid) && Numbered(ps, pid, cc, false)
    ensures StepAll(s, ps) == Some(Append(s, pid, Payloads(ps)))
    decreases |ps|
  {
    hide D.PidOf, D.StartOf, D.PayloadOf;
    if ps == [] {
      assert s.video.buf + [] == s.video.buf && s.audio.buf + [] == s.audio.buf;
    } else {
      assert D.PidOf(ps[0]) == pid && !D.StartOf(ps[0]);
      var b := if D.PayloadOf(ps[0]).Some? then D.PayloadOf(ps[0]).value else [];
      var next := Append(s, pid, b);
      assert s.video.buf + [] == s.video.buf && s.audio.buf + [] == s.audio.buf;
      assert s.units + [] == s.units && s.frames + [] == s.frames;
      assert D.Step(s, ps[0]) == Some(next);
      NumberedRest(ps, pid, cc);
      Continued(next, ps[1..], pid, (cc + 1) % 0x10);
      var more := Payloads(ps[1..]);
      assert s.video.buf + b + more == s.video.buf + (b + more);
      assert s.audio.buf + b + more == s.audio.buf + (b + more);
    }
  }

  lemma NumberedRest(ps: seq<seq<byte>>, pid: u16, cc: byte)
    requires ps != [] && exists start :: Numbered(ps, pid, cc, start)
    ensures Numbered(ps[1..], pid, (cc + 1) % 0x10, false)
  {
    hide D.PidOf, D.StartOf;
    var rest := ps[1..];
    forall i | 0 <= i < |rest|
      ensures Framed(rest[i]) && D.PidOf(rest[i]) == pid && !D.StartOf(rest[i])
      ensures rest[i][3] % 0x10 == ((cc + 1) % 0x10 + i) % 0x10
    {
      assert rest[i] == ps[i + 1];
    }
  }

  /** The first packet of a unit in the domain holds the whole header and more. */
  lemma FirstPayload(pid: u16, cc: byte, key: bool, dts: u64, u: seq<byte>)
    requires Media(pid) && |u| > 0 && InDomain(key, |u|)
    ensures
      var ps := MuxRun(pid, cc, true, key, dts, u, 0).packets;
      && AllFramed(ps) && |ps| > 0
      && D.PayloadOf(ps[0]).Some?
      && var b := D.PayloadOf(ps[0]).value;
      && u == b + Payloads(ps[1..]) && (|b| >= 176 || b == u)
  {
    hide CutAt, D.PayloadOf;
    UnitExact(pid, cc, key, dts, u);
    CutClean(pid, true, cc, key, dts, u, 0);
    var ps := MuxRun(pid, cc, true, key, dts, u, 0).packets;
    assert ps[0] == CutAt(pid, true, cc, key, dts, u, 0, |u|).packet;
    assert u[0..] == u;
  }

  /** The unit's packets do to the demultiplexer what the ideal one does with the unit. */
  lemma UnitFed(s: D.State, pid: u16, cc: byte, key: bool, streamID: byte, pts: u64, dts: u64, data: seq<byte>)
    requires Learned(s) && s.audio.dts == 0 && Media(pid) && !Pes.NoOptionalHeader(streamID)
    requires InDomain(key, |Pes.Header(1, streamID, pts, dts, |data|) + data|)
    ensures
      var ps := MuxRun(pid, cc, true, key, dts, Pes.Header(1, streamID, pts, dts, |data|) + data, 0).packets;
      && AllFramed(ps)
      && StepAll(s, ps) == Some(Accept(s, pid, pts, dts, data))
  {
    hide CutAt, D.PayloadOf, D.PidOf, D.StartOf, MuxRun, Pes.Header, D.ParsePESHeader;
    var header := Pes.Header(1, streamID, pts, dts, |data|);
    var u := header + data;
    var ps := MuxRun(pid, cc, true, key, dts, u, 0).packets;
    FirstPayload(pid, cc, key, dts, u);
    RunNumbered(pid, cc, true, key, dts, u, 0);
    var b := D.PayloadOf(ps[0]).value;
    var head := b[|header|..];
    assert b == header + head && data == head + Payloads(ps[1..]) by {
      assert u[..|b|] == b && u[|b|..] == Payloads(ps[1..]);
    }
    HeaderRead(streamID, pts, dts, |data|, head);
    var first := Accept(s, pid, pts, dts, head);
    assert D.PidOf(ps[0]) == pid && D.StartOf(ps[0]);
    assert D.Step(s, ps[0]) == Some(first);
    NumberedRest(ps, pid, cc);
    Continued(first, ps[1..], pid, (cc + 1) % 0x10);
  }
}
