/**
  H.264 over RTP: `PackNAL` of librtsp/h264.go with its FU-A fragments, the packets of
  librtsp/rtp.go, the sending loop of librtmp/rtsp_server.go, and the way back through
  `ParseRTP` and `H264Reassembler.Push` of librtsp/rtp_unpack.go.
 */
module RtpH264 {
  import opened Bytes
  import opened NalUnits
  import opened Wrappers

  const DEFAULT_MTU: int := 1400

  // ----- Payloads -----

  function Fragment(header: byte, body: seq<byte>, i: nat, end: nat): (p: seq<byte>)
    requires i <= end <= |body|
    ensures |p| == 2 + end - i
  {
    [header / 0x20 % 4 * 0x20 + 28,
     NalType(header) + (if i == 0 then 0x80 else 0) + (if end == |body| then 0x40 else 0)] + body[i..end]
  }

  /** FU-A fragments of the body from i on. */
  function Fragments(header: byte, body: seq<byte>, size: int, i: nat): seq<seq<byte>>
    requires size > 0
    decreases |body| - i
  {
    if i >= |body| then []
    else
      var end := if i + size > |body| then |body| else i + size;
      [Fragment(header, body, i, end)] + Fragments(header, body, size, i + size)
  }

  /** What `PackNAL` makes of a NAL unit for a payload limit. */
  function Pieces(nal: seq<byte>, limit: int): seq<seq<byte>> {
    var mtu := if limit <= 0 then DEFAULT_MTU else limit;
    if |nal| == 0 then []
    else if |nal| <= mtu then [nal]
    else if mtu - 2 <= 0 then []
    else Fragments(nal[0], nal[1..], mtu - 2, 0)
  }

  lemma PiecesAre(nal: seq<byte>, limit: int)
    ensures
      var mtu := if limit <= 0 then DEFAULT_MTU else limit;
      Pieces(nal, limit)
      == if |nal| == 0 then [] else if |nal| <= mtu then [nal] else if mtu - 2 <= 0 then []
         else Fragments(nal[0], nal[1..], mtu - 2, 0)
  {
    hide Fragments;
  }

  lemma NextFragment(header: byte, body: seq<byte>, size: int, i: nat)
    requires size > 0
    ensures
      var end := if i + size > |body| then |body| else i + size;
      Fragments(header, body, size, i)
      == if i >= |body| then [] else [Fragment(header, body, i, end)] + Fragments(header, body, size, i + size)
  {}

  /** One fragment: indicator, header with the start and end bits, and the bytes. */
  method PackFragment(nalHeader: byte, body: seq<byte>, i: nat, end: nat) returns (pkt: seq<byte>)
    requires i <= end <= |body|
    ensures pkt == Fragment(nalHeader, body, i, end)
  {
    var nri := nalHeader / 0x20 % 4;
    var nalType := nalHeader % 0x20;
    var fuIndicator: byte := nri * 0x20 + 28;
    var fuHeader: byte := nalType;
    if i == 0 {
      fuHeader := fuHeader + 0x80;
    }
    if end == |body| {
      fuHeader := fuHeader + 0x40;
    }
    pkt := [fuIndicator, fuHeader] + body[i..end];
  }

  method PackNAL(nal: seq<byte>, limit: int) returns (out: seq<seq<byte>>)
    ensures out == Pieces(nal, limit)
  {
    hide *;
    PiecesAre(nal, limit);
    var mtu := limit;
    if mtu <= 0 {
      mtu := DEFAULT_MTU;
    }
    if |nal| == 0 {
      return [];
    }
    if |nal| <= mtu {
      return [nal];
    }
    var nalHeader := nal[0];
    var body := nal[1..];
    var fragSize := mtu - 2;
    if fragSize <= 0 {
      return [];
    }
    out := [];
    var i := 0;
    assert [] + Fragments(nalHeader, body, fragSize, 0) == Fragments(nalHeader, body, fragSize, 0);
    while i < |body|
      invariant 0 <= i
      invariant out + Fragments(nalHeader, body, fragSize, i) == Fragments(nalHeader, body, fragSize, 0)
    {
      NextFragment(nalHeader, body, fragSize, i);
      var end := i + fragSize;
      if end > |body| {
        end := |body|;
      }
      var pkt := PackFragment(nalHeader, body, i, end);
      Regroup(out, [pkt], Fragments(nalHeader, body, fragSize, i + fragSize));
      out := out + [pkt];
      i := i + fragSize;
    }
    NextFragment(nalHeader, body, fragSize, i);
    assert out + [] == out;
  }

  predicate IsFragment(p: seq<byte>) {
    |p| >= 2 && NalType(p[0]) == 28
  }

  lemma {:induction false} FragmentsFit(header: byte, body: seq<byte>, size: int, i: nat)
    requires size > 0
    ensures
      var ps := Fragments(header, body, size, i);
      && (forall k :: 0 <= k < |ps| ==> 2 < |ps[k]| <= size + 2 && NalType(ps[k][0]) == 28)
      && (forall k :: 0 <= k < |ps| ==> (ps[k][1] / 0x80 == 1 <==> k == 0 && i == 0))
      && (forall k :: 0 <= k < |ps| ==> (ps[k][1] / 0x40 % 2 == 1 <==> k == |ps| - 1))
      && (i == 0 && |body| > size ==> |ps| >= 2)
    decreases |body| - i
  {
    if i < |body| {
      var end := if i + size > |body| then |body| else i + size;
      var rest := Fragments(header, body, size, i + size);
      FragmentsFit(header, body, size, i + size);
      var ps := [Fragment(header, body, i, end)] + rest;
      assert end < |body| ==> rest != [];
      forall k | 0 <= k < |ps|
        ensures 2 < |ps[k]| <= size + 2 && NalType(ps[k][0]) == 28
        ensures ps[k][1] / 0x80 == 1 <==> k == 0 && i == 0
        ensures ps[k][1] / 0x40 % 2 == 1 <==> k == |ps| - 1
      {
        if k > 0 {
          assert ps[k] == rest[k - 1];
        }
      }
    }
  }

  /** Every payload is within the limit, and no fragment both starts and ends its unit (RFC 6184 section 5.8). */
  lemma PiecesFit(nal: seq<byte>, mtu: int)
    requires mtu >= 3 && nal != []
    ensures
      var ps := Pieces(nal, mtu);
      && ps != []
      && (forall k :: 0 <= k < |ps| ==> 0 < |ps[k]| <= mtu)
      && (|nal| > mtu ==> forall k :: 0 <= k < |ps| ==> IsFragment(ps[k]) && !(ps[k][1] / 0x80 == 1 && ps[k][1] / 0x40 % 2 == 1))
  {
    if |nal| > mtu {
      FragmentsFit(nal[0], nal[1..], mtu - 2, 0);
    }
  }

  // ----- Packets -----

  datatype Packet = Packet(payloadType: byte, marker: bool, sequence: u16, timestamp: u32, ssrc: u32, payload: seq<byte>)

  /** What may stand around the payload of an RTP packet: RFC 3550 sections 5.1 and 5.3.1. */
  datatype Envelope = Envelope(csrc: seq<u32>, extension: Option<(u16, seq<u32>)>, padding: seq<byte>)

  const BARE := Envelope([], None, [])

  function Words(ws: seq<u32>): (b: seq<byte>)
    ensures |b| == 4 * |ws|
  {
    if ws == [] then [] else Put32(ws[0]) + Words(ws[1..])
  }

  predicate Enveloped(e: Envelope) {
    && |e.csrc| < 16
    && (e.extension.Some? ==> |e.extension.value.1| < 0x1_0000)
    && (e.padding != [] ==> |e.padding| < 0x100 && e.padding[|e.padding| - 1] == |e.padding|)
  }

  function ExtensionBytes(e: Option<(u16, seq<u32>)>): (b: seq<byte>)
    requires e.Some? ==> |e.value.1| < 0x1_0000
  {
    match e
    case None => []
    case Some(x) => Put16(x.0) + Put16(|x.1|) + Words(x.1)
  }

  function FixedHeader(first: byte, p: Packet): (b: seq<byte>)
    requires p.payloadType < 0x80
    ensures |b| == 12
  {
    [first, p.payloadType + (if p.marker then 0x80 else 0)] + Put16(p.sequence) + Put32(p.timestamp) + Put32(p.ssrc)
  }

  function FirstByte(e: Envelope): byte
    requires Enveloped(e)
  {
    0x80 + (if e.padding != [] then 0x20 else 0) + (if e.extension.Some? then 0x10 else 0) + |e.csrc|
  }

  /** An RTP packet as RFC 3550 lays it out. */
  function Packed(p: Packet, e: Envelope): seq<byte>
    requires p.payloadType < 0x80 && Enveloped(e)
  {
    FixedHeader(FirstByte(e), p) + Words(e.csrc) + ExtensionBytes(e.extension) + p.payload + e.padding
  }

  /** Where the extension ends, when it fits. */
  function PastExtension(buf: seq<byte>, off: nat): Option<nat>
    requires off <= |buf|
  {
    if |buf| < off + 4 then None
    else
      var end := off + 4 + Get16(buf[off + 2..]) * 4;
      if |buf| < end then None else Some(end)
  }

  /** What is left of the body once the padding its last byte counts is taken off. */
  function Unpadded(body: seq<byte>, padded: bool): Option<seq<byte>> {
    if !padded then Some(body)
    else if body == [] || body[|body| - 1] as int > |body| then None
    else Some(body[..|body| - body[|body| - 1] as int])
  }

  function PayloadAt(buf: seq<byte>, listed: nat, extended: bool, padded: bool): Option<seq<byte>> {
    if |buf| < listed then None
    else
      var off := if extended then PastExtension(buf, listed) else Some(listed);
      if off.None? then None else Unpadded(buf[off.value..], padded)
  }

  /** `ParseRTP`; None is an error return. */
  function ParseRTP(buf: seq<byte>): Option<Packet> {
    if |buf| < 12 || buf[0] / 0x40 != 2 then None
    else
      var payload := PayloadAt(buf, 12 + 4 * (buf[0] % 0x10), buf[0] / 0x10 % 2 == 1, buf[0] / 0x20 % 2 == 1);
      if payload.None? then None
      else
        Some(Packet(buf[1] % 0x80, buf[1] / 0x80 == 1, Get16(buf[2..]), Get32(buf[4..]), Get32(buf[8..]), payload.value))
  }

  lemma FixedRead(first: byte, p: Packet, tail: seq<byte>)
    requires p.payloadType < 0x80
    ensures
      var b := FixedHeader(first, p) + tail;
      && b[0] == first
      && b[1] % 0x80 == p.payloadType && (b[1] / 0x80 == 1 <==> p.marker)
      && Get16(b[2..]) == p.sequence && Get32(b[4..]) == p.timestamp && Get32(b[8..]) == p.ssrc
  {
    var b := FixedHeader(first, p) + tail;
    assert b[2..] == Put16(p.sequence) + (Put32(p.timestamp) + Put32(p.ssrc) + tail);
    assert b[4..] == Put32(p.timestamp) + (Put32(p.ssrc) + tail);
    assert b[8..] == Put32(p.ssrc) + tail;
    GetPut16(p.sequence, Put32(p.timestamp) + Put32(p.ssrc) + tail);
    GetPut32(p.timestamp, Put32(p.ssrc) + tail);
    GetPut32(p.ssrc, tail);
  }

  lemma ExtensionRead(front: seq<byte>, x: Option<(u16, seq<u32>)>, rest: seq<byte>)
    requires x.Some? && |x.value.1| < 0x1_0000
    ensures PastExtension(front + ExtensionBytes(x) + rest, |front|) == Some(|front + ExtensionBytes(x)|)
  {
    hide Put16, Get16, Words;
    var ws := x.value.1;
    var buf := front + ExtensionBytes(x) + rest;
    assert ExtensionBytes(x) == Put16(x.value.0) + Put16(|ws|) + Words(ws);
    Behind(front, Put16(x.value.0), Put16(|ws|), Words(ws), rest);
    GetPut16(|ws|, Words(ws) + rest);
  }

  lemma Behind(front: seq<byte>, a: seq<byte>, b: seq<byte>, c: seq<byte>, rest: seq<byte>)
    ensures (front + (a + b + c) + rest)[|front| + |a|..] == b + (c + rest)
  {
    assert front + (a + b + c) + rest == front + a + (b + (c + rest));
  }

  lemma FirstByteBits(e: Envelope)
    requires Enveloped(e)
    ensures
      var b := FirstByte(e);
      && b / 0x40 == 2 && b % 0x10 == |e.csrc|
      && (b / 0x10 % 2 == 1 <==> e.extension.Some?)
      && (b / 0x20 % 2 == 1 <==> e.padding != [])
  {}

  lemma PaddingRead(payload: seq<byte>, padding: seq<byte>)
    requires padding != [] ==> padding[|padding| - 1] == |padding|
    ensures Unpadded(payload + padding, padding != []) == Some(payload)
  {
    if padding != [] {
      assert (payload + padding)[..|payload|] == payload;
    } else {
      assert payload + padding == payload;
    }
  }

  lemma PayloadRead(listed: seq<byte>, p: seq<byte>, e: Envelope)
    requires Enveloped(e)
    ensures
      PayloadAt(listed + ExtensionBytes(e.extension) + p + e.padding, |listed|, e.extension.Some?, e.padding != []) == Some(p)
  {
    var front := listed + ExtensionBytes(e.extension);
    var buf := front + p + e.padding;
    assert buf == front + (p + e.padding);
    assert buf[|front|..] == p + e.padding;
    if e.extension.Some? {
      ExtensionRead(listed, e.extension, p + e.padding);
    } else {
      assert front == listed;
    }
    PaddingRead(p, e.padding);
  }

  /** Whatever the envelope, parsing gives back the packet: CSRC list, extension and padding are skipped exactly. */
  lemma PacketRead(p: Packet, e: Envelope)
    requires p.payloadType < 0x80 && Enveloped(e)
    ensures ParseRTP(Packed(p, e)) == Some(p)
  {
    hide PayloadAt, FirstByte, FixedHeader, ExtensionBytes, Words, Get16, Get32;
    var first := FirstByte(e);
    var tail := Words(e.csrc) + ExtensionBytes(e.extension) + p.payload + e.padding;
    assert Packed(p, e) == FixedHeader(first, p) + tail;
    FixedRead(first, p, tail);
    FirstByteBits(e);
    PayloadRead(FixedHeader(first, p) + Words(e.csrc), p.payload, e);
  }

  /** `RTPPacker`. */
  class RTPPacker {
    const payloadType: byte
    const ssrc: u32
    var seqNo: u16

    constructor (payloadType: byte, ssrc: u32)
      ensures this.payloadType == payloadType && this.ssrc == ssrc && seqNo == ssrc % 0x1_0000
    {
      this.payloadType, this.ssrc := payloadType, ssrc;
      seqNo := ssrc % 0x1_0000;
    }

    method Pack(marker: bool, timestamp: u32, payload: seq<byte>) returns (out: seq<byte>)
      modifies this`seqNo
      ensures out == Packed(Packet(payloadType % 0x80, marker, old(seqNo), timestamp, ssrc, payload), BARE)
      ensures seqNo == U16(old(seqNo) + 1)
    {
      var second: byte := payloadType % 0x80;
      if marker {
        second := second + 0x80;
      }
      out := [0x80, second];
      out := out + Put16(seqNo);
      out := out + Put32(timestamp);
      out := out + Put32(ssrc);
      out := out + payload;
      assert out == Packed(Packet(payloadType % 0x80, marker, seqNo, timestamp, ssrc, payload), BARE);
      seqNo := U16(seqNo + 1);
    }
  }

  // ----- Reassembly -----

  /** The fields of `H264Reassembler`; a nil buffer is an empty one. */
  datatype Reassembly = Reassembly(fuBuf: seq<byte>, pending: seq<seq<byte>>, ts: u32)

  datatype AccessUnit = AccessUnit(nals: seq<seq<byte>>, ts: u32)

  /** The units of a STAP-A body. */
  function Aggregated(body: seq<byte>): (nals: seq<seq<byte>>)
    ensures forall i :: 0 <= i < |nals| ==> |nals[i]| < |body|
    decreases |body|
  {
    if |body| < 2 then []
    else
      var n := Get16(body);
      if n > |body| - 2 then [] else [body[2..2 + n]] + Aggregated(body[2 + n..])
  }

  /** One FU-A payload. */
  function Joined(r: Reassembly, p: seq<byte>): Reassembly
    requires |p| >= 2
  {
    var unit := (if p[1] / 0x80 == 1 then [p[0] / 0x20 * 0x20 + NalType(p[1])] else r.fuBuf) + p[2..];
    if p[1] / 0x40 % 2 == 1 then r.(fuBuf := [], pending := r.pending + [unit]) else r.(fuBuf := unit)
  }

  predicate Malformed(p: seq<byte>) {
    p == [] || (NalType(p[0]) == 28 && |p| < 2)
  }

  function Absorbed(r: Reassembly, p: seq<byte>): Reassembly {
    if Malformed(p) then r
    else if 1 <= NalType(p[0]) <= 23 then r.(pending := r.pending + [p])
    else if NalType(p[0]) == 24 then r.(pending := r.pending + Aggregated(p[1..]))
    else if NalType(p[0]) == 28 then Joined(r, p)
    else r
  }

  /** A pushed packet, and the access unit it completes if it does. */
  function Pushed(r: Reassembly, p: Packet): (Reassembly, seq<AccessUnit>) {
    if p.payload == [] then (r, [])
    else
      var s := Absorbed(r.(ts := p.timestamp), p.payload);
      if !Malformed(p.payload) && p.marker && s.pending != []
      then (s.(pending := []), [AccessUnit(s.pending, s.ts)])
      else (s, [])
  }

  class H264Reassembler {
    var fuBuf: seq<byte>
    var pending: seq<seq<byte>>
    var pendingTS: u32

    constructor ()
      ensures State() == Reassembly([], [], 0)
    {
      fuBuf, pending, pendingTS := [], [], 0;
    }

    function State(): Reassembly
      reads this
    {
      Reassembly(fuBuf, pending, pendingTS)
    }

    /** The units of a STAP-A body, one after another onto the pending ones. */
    method Split(payload: seq<byte>)
      requires payload != []
      modifies this`pending
      ensures pending == old(pending) + Aggregated(payload[1..])
    {
      var body := payload[1..];
      while |body| >= 2
        invariant pending + Aggregated(body) == old(pending) + Aggregated(payload[1..])
        decreases |body|
      {
        var n := Get16(body);
        ghost var whole := body;
        body := body[2..];
        if n > |body| {
          break;
        }
        assert body[..n] == whole[2..2 + n] && body[n..] == whole[2 + n..];
        pending := pending + [body[..n]];
        body := body[n..];
      }
    }

    method Push(pkt: Packet) returns (nals: seq<seq<byte>>, ts: u32)
      modifies this
      ensures State() == Pushed(old(State()), pkt).0
      ensures
        var done := Pushed(old(State()), pkt).1;
        if done == [] then nals == [] && ts == 0 else nals != [] && done == [AccessUnit(nals, ts)]
    {
      if |pkt.payload| == 0 {
        return [], 0;
      }
      pendingTS := pkt.timestamp;
      var hdr := pkt.payload[0];
      var nalType := NalType(hdr);
      if 1 <= nalType <= 23 {
        pending := pending + [pkt.payload];
      } else if nalType == 24 {
        Split(pkt.payload);
      } else if nalType == 28 {
        if |pkt.payload| < 2 {
          return [], 0;
        }
        var fuHeader := pkt.payload[1];
        if fuHeader / 0x80 == 1 {
          fuBuf := [hdr / 0x20 * 0x20 + fuHeader % 0x20];
        }
        fuBuf := fuBuf + pkt.payload[2..];
        if fuHeader / 0x40 % 2 == 1 {
          pending := pending + [fuBuf];
          fuBuf := [];
        }
      }
      if pkt.marker && |pending| > 0 {
        nals := pending;
        ts := pendingTS;
        pending := [];
        return;
      }
      return [], 0;
    }
  }

  function AbsorbedAll(r: Reassembly, ps: seq<seq<byte>>): Reassembly
    decreases |ps|
  {
    if ps == [] then r else AbsorbedAll(Absorbed(r, ps[0]), ps[1..])
  }

  lemma {:induction false} AbsorbedAppend(r: Reassembly, a: seq<seq<byte>>, b: seq<seq<byte>>)
    ensures AbsorbedAll(r, a + b) == AbsorbedAll(AbsorbedAll(r, a), b)
    decreases |a|
  {
    if a == [] {
      assert a + b == b;
    } else {
      assert (a + b)[1..] == a[1..] + b;
      AbsorbedAppend(Absorbed(r, a[0]), a[1..], b);
    }
  }

  // ----- One NAL unit there and back -----

  /** What survives packing: small units of a type of their own, and large ones without the forbidden bit. */
  predicate Survives(nal: seq<byte>, mtu: int) {
    && nal != []
    && (if |nal| <= mtu then 1 <= NalType(nal[0]) <= 23 else nal[0] < 0x80)
  }

  /** The first byte a fragmented unit comes back with. */
  function Rebuilt(header: byte): byte { header % 0x80 }

  lemma FragmentAbsorbed(r: Reassembly, header: byte, body: seq<byte>, i: nat, end: nat)
    requires i < end <= |body|
    requires i > 0 ==> r.fuBuf == [Rebuilt(header)] + body[..i]
    ensures
      var unit := [Rebuilt(header)] + body[..end];
      Absorbed(r, Fragment(header, body, i, end))
      == if end == |body| then r.(fuBuf := [], pending := r.pending + [unit]) else r.(fuBuf := unit)
  {
    var p := Fragment(header, body, i, end);
    FragmentHeader(header, body, i, end);
    Grow(Rebuilt(header), body, i, end);
    hide Fragment, Rebuilt;
  }

  lemma FragmentHeader(header: byte, body: seq<byte>, i: nat, end: nat)
    requires i < end <= |body|
    ensures
      var p := Fragment(header, body, i, end);
      && NalType(p[0]) == 28 && p[0] / 0x20 * 0x20 + NalType(p[1]) == Rebuilt(header)
      && (p[1] / 0x80 == 1 <==> i == 0) && (p[1] / 0x40 % 2 == 1 <==> end == |body|)
      && p[2..] == body[i..end]
  {
    HeaderBits(header / 0x20, NalType(header), i == 0, end == |body|);
  }

  lemma HeaderBits(high: int, low: int, start: bool, last: bool)
    requires 0 <= high < 8 && 0 <= low < 0x20
    ensures
      var first, second := high % 4 * 0x20 + 28, low + (if start then 0x80 else 0) + (if last then 0x40 else 0);
      && first % 0x20 == 28 && first / 0x20 * 0x20 + second % 0x20 == (high * 0x20 + low) % 0x80
      && (second / 0x80 == 1 <==> start) && (second / 0x40 % 2 == 1 <==> last)
  {
    HighBits(high, low);
    LowBits(low, if start then 1 else 0, if last then 1 else 0);
  }

  lemma HighBits(high: int, low: int)
    requires 0 <= high < 8 && 0 <= low < 0x20
    ensures
      var first := high % 4 * 0x20 + 28;
      first % 0x20 == 28 && first / 0x20 == high % 4 && high % 4 * 0x20 + low == (high * 0x20 + low) % 0x80
  {}

  lemma LowBits(low: int, start: int, last: int)
    requires 0 <= low < 0x20 && 0 <= start < 2 && 0 <= last < 2
    ensures
      var second := low + start * 0x80 + last * 0x40;
      second % 0x20 == low && second / 0x80 == start && second / 0x40 % 2 == last
  {
    assert (low + start * 0x80 + last * 0x40) / 0x40 == start * 2 + last;
  }

  lemma Grow(b: byte, body: seq<byte>, i: nat, end: nat)
    requires i <= end <= |body|
    ensures [b] + body[..i] + body[i..end] == [b] + body[..end]
    ensures i == 0 ==> [b] + body[i..end] == [b] + body[..end]
  {
    assert body[..i] + body[i..end] == body[..end];
  }

  lemma {:induction false} FragmentsAbsorbed(r: Reassembly, header: byte, body: seq<byte>, size: int, i: nat)
    requires size > 0 && i < |body|
    requires i > 0 ==> r.fuBuf == [Rebuilt(header)] + body[..i]
    ensures
      AbsorbedAll(r, Fragments(header, body, size, i))
      == r.(fuBuf := [], pending := r.pending + [[Rebuilt(header)] + body])
    decreases |body| - i
  {
    var end := if i + size > |body| then |body| else i + size;
    FragmentAbsorbed(r, header, body, i, end);
    assert body[..|body|] == body;
    hide Absorbed, Fragment;
    if end < |body| {
      FragmentsAbsorbed(Absorbed(r, Fragment(header, body, i, end)), header, body, size, end);
    }
    var ps := Fragments(header, body, size, i);
    assert ps[1..] == Fragments(header, body, size, i + size);
  }

  lemma OnlyItself(pending: seq<seq<byte>>, more: seq<seq<byte>>, nal: seq<byte>)
    ensures pending + more == pending + [nal] <==> more == [nal]
  {
    assert (pending + more)[|pending|..] == more;
    assert (pending + [nal])[|pending|..] == [nal];
  }

  lemma SmallUnit(r: Reassembly, nal: seq<byte>)
    requires nal != []
    ensures 1 <= NalType(nal[0]) <= 23 ==> Absorbed(r, nal).pending == r.pending + [nal]
    ensures r.fuBuf == [] ==> (1 <= NalType(nal[0]) <= 23 <==> Absorbed(r, nal).pending == r.pending + [nal])
    ensures Absorbed(r, nal).ts == r.ts
  {
    if Malformed(nal) {
      OnlyItself(r.pending, [], nal);
      assert r.pending + [] == r.pending;
    } else if NalType(nal[0]) == 24 {
      var more := Aggregated(nal[1..]);
      OnlyItself(r.pending, more, nal);
      assert |more| == 1 ==> |more[0]| < |nal|;
    } else if NalType(nal[0]) == 28 && nal[1] / 0x40 % 2 == 1 {
      OnlyItself(r.pending, [(if nal[1] / 0x80 == 1 then [nal[0] / 0x20 * 0x20 + NalType(nal[1])] else r.fuBuf) + nal[2..]], nal);
    } else {
      OnlyItself(r.pending, [], nal);
      assert r.pending + [] == r.pending;
    }
  }

  lemma LargeUnit(r: Reassembly, nal: seq<byte>, size: int)
    requires size > 0 && |nal| > 1
    ensures
      var s := AbsorbedAll(r, Fragments(nal[0], nal[1..], size, 0));
      s.ts == r.ts && (s.pending == r.pending + [nal] <==> nal[0] < 0x80)
  {
    hide AbsorbedAll, Fragments;
    FragmentsAbsorbed(r, nal[0], nal[1..], size, 0);
    var unit := [Rebuilt(nal[0])] + nal[1..];
    assert nal == [nal[0]] + nal[1..];
    OnlyItself(r.pending, [unit], nal);
    assert unit[0] == Rebuilt(nal[0]);
  }

  /**
    From a reassembler with no fragment under way, the pieces of a unit give that unit back exactly
    when it survives. A unit that does survive needs no such start.
   */
  lemma UnitAbsorbed(r: Reassembly, nal: seq<byte>, mtu: int)
    requires mtu >= 3
    ensures Survives(nal, mtu) ==> AbsorbedAll(r, Pieces(nal, mtu)).pending == r.pending + [nal]
    ensures r.fuBuf == [] ==>
      (Survives(nal, mtu) <==> AbsorbedAll(r, Pieces(nal, mtu)).pending == r.pending + [nal])
    ensures AbsorbedAll(r, Pieces(nal, mtu)).ts == r.ts
  {
    hide NalType, Fragments, Absorbed;
    if nal == [] {
      assert AbsorbedAll(r, []) == r;
      OnlyItself(r.pending, [], nal);
      assert r.pending + [] == r.pending;
    } else if |nal| <= mtu {
      assert [nal][1..] == [];
      assert AbsorbedAll(r, [nal]) == AbsorbedAll(Absorbed(r, nal), []);
      SmallUnit(r, nal);
    } else {
      LargeUnit(r, nal, mtu - 2);
    }
  }

  // ----- Access units there and back -----

  function Payloads(nals: seq<seq<byte>>, mtu: int): seq<seq<byte>> {
    if nals == [] then [] else Pieces(nals[0], mtu) + Payloads(nals[1..], mtu)
  }

  /** The packets of an access unit: numbered from seqNo, the marker on the last. */
  function Sent(payloads: seq<seq<byte>>, payloadType: byte, ssrc: u32, ts: u32, seqNo: u16): (out: seq<seq<byte>>)
    ensures |out| == |payloads|
  {
    if payloads == [] then []
    else
      [Packed(Packet(payloadType % 0x80, |payloads| == 1, seqNo, ts, ssrc, payloads[0]), BARE)]
      + Sent(payloads[1..], payloadType, ssrc, ts, U16(seqNo + 1))
  }

  lemma NextPiece(pieces: seq<seq<byte>>, later: seq<seq<byte>>, pi: nat)
    requires pi < |pieces|
    ensures
      var left := pieces[pi..] + later;
      && left[0] == pieces[pi] && left[1..] == pieces[pi + 1..] + later
      && (|left| == 1 <==> pi == |pieces| - 1 && later == [])
  {}

  lemma NoPieces(nals: seq<seq<byte>>)
    requires forall i :: 0 <= i < |nals| ==> nals[i] != []
    ensures Payloads(nals, DEFAULT_MTU) == [] <==> nals == []
  {
    if nals != [] {
      PiecesFit(nals[0], DEFAULT_MTU);
    }
  }

  /** What is written and what is left to write make up the packets of the tag. */
  ghost predicate Progress(out: seq<seq<byte>>, left: seq<seq<byte>>, payloadType: byte, ssrc: u32, ts: u32,
                           seqNo: u16, seqNo0: u16, all: seq<seq<byte>>) {
    && seqNo == U16(seqNo0 + |out|)
    && out + Sent(left, payloadType, ssrc, ts, seqNo) == all
  }

  lemma ProgressStep(out: seq<seq<byte>>, left: seq<seq<byte>>, payloadType: byte, ssrc: u32, ts: u32,
                     seqNo: u16, seqNo0: u16, all: seq<seq<byte>>)
    requires left != [] && Progress(out, left, payloadType, ssrc, ts, seqNo, seqNo0, all)
    ensures
      var pkt := Packed(Packet(payloadType % 0x80, |left| == 1, seqNo, ts, ssrc, left[0]), BARE);
      Progress(out + [pkt], left[1..], payloadType, ssrc, ts, U16(seqNo + 1), seqNo0, all)
  {
    hide Packed;
    var pkt := Packed(Packet(payloadType % 0x80, |left| == 1, seqNo, ts, ssrc, left[0]), BARE);
    var later := Sent(left[1..], payloadType, ssrc, ts, U16(seqNo + 1));
    assert out + [pkt] + later == out + ([pkt] + later);
  }

  /** `sendVideo` for an AVC tag: the packets written, one by one. */
  method SendVideo(packer: RTPPacker, data: seq<byte>, timeStamp: u32, cts: u32) returns (out: seq<seq<byte>>)
    modifies packer`seqNo
    ensures
      out == Sent(Payloads(Split(data), DEFAULT_MTU), packer.payloadType, packer.ssrc,
                  U32(U32(timeStamp + cts) * 90), old(packer.seqNo))
    ensures packer.seqNo == U16(old(packer.seqNo) + |out|)
  {
    hide Packed, Pieces, Progress, Split;
    out := [];
    var nals := SplitAVCC(data);
    var pts := U32(U32(timeStamp + cts) * 90);
    ghost var all := Sent(Payloads(nals, DEFAULT_MTU), packer.payloadType, packer.ssrc, pts, packer.seqNo);
    if |nals| == 0 {
      return;
    }
    assert nals[0..] == nals;
    var ni := 0;
    assert Progress(out, Payloads(nals, DEFAULT_MTU), packer.payloadType, packer.ssrc, pts, packer.seqNo, packer.seqNo, all) by {
      Start(Payloads(nals, DEFAULT_MTU), packer.payloadType, packer.ssrc, pts, packer.seqNo);
    }
    while ni < |nals|
      invariant 0 <= ni <= |nals|
      invariant Progress(out, Payloads(nals[ni..], DEFAULT_MTU), packer.payloadType, packer.ssrc, pts,
                         packer.seqNo, old(packer.seqNo), all)
    {
      var pieces := PackNAL(nals[ni], DEFAULT_MTU);
      ghost var later := Payloads(nals[ni + 1..], DEFAULT_MTU);
      assert nals[ni..][1..] == nals[ni + 1..];
      NoPieces(nals[ni + 1..]);
      var pi := 0;
      assert pieces[0..] == pieces;
      while pi < |pieces|
        invariant 0 <= pi <= |pieces|
        invariant Progress(out, pieces[pi..] + later, packer.payloadType, packer.ssrc, pts,
                           packer.seqNo, old(packer.seqNo), all)
      {
        var marker := ni == |nals| - 1 && pi == |pieces| - 1;
        NextPiece(pieces, later, pi);
        ProgressStep(out, pieces[pi..] + later, packer.payloadType, packer.ssrc, pts, packer.seqNo, old(packer.seqNo), all);
        var pkt := packer.Pack(marker, pts, pieces[pi]);
        out := out + [pkt];
        pi := pi + 1;
      }
      assert pieces[|pieces|..] + later == later;
      ni := ni + 1;
    }
    Finish(out, packer.payloadType, packer.ssrc, pts, packer.seqNo, old(packer.seqNo), all);
  }

  lemma Start(payloads: seq<seq<byte>>, payloadType: byte, ssrc: u32, ts: u32, seqNo: u16)
    ensures Progress([], payloads, payloadType, ssrc, ts, seqNo, seqNo, Sent(payloads, payloadType, ssrc, ts, seqNo))
  {}

  lemma Finish(out: seq<seq<byte>>, payloadType: byte, ssrc: u32, ts: u32, seqNo: u16, seqNo0: u16, all: seq<seq<byte>>)
    requires Progress(out, [], payloadType, ssrc, ts, seqNo, seqNo0, all)
    ensures out == all && seqNo == U16(seqNo0 + |out|)
  {}

  /** Datagrams handed to the ingest side one by one; one that does not parse is dropped. */
  function FedAll(r: Reassembly, packets: seq<seq<byte>>): (Reassembly, seq<AccessUnit>)
    decreases |packets|
  {
    if packets == [] then (r, [])
    else
      var p := ParseRTP(packets[0]);
      var first := if p.None? then (r, []) else Pushed(r, p.value);
      var rest := FedAll(first.0, packets[1..]);
      (rest.0, first.1 + rest.1)
  }

  lemma {:induction false} FedAppend(r: Reassembly, a: seq<seq<byte>>, b: seq<seq<byte>>)
    ensures
      var first := FedAll(r, a);
      var second := FedAll(first.0, b);
      FedAll(r, a + b) == (second.0, first.1 + second.1)
    decreases |a|
  {
    hide ParseRTP, Pushed;
    if a == [] {
      assert a + b == b;
      assert [] + FedAll(r, b).1 == FedAll(r, b).1;
    } else {
      assert (a + b)[1..] == a[1..] + b;
      var p := ParseRTP(a[0]);
      var one := if p.None? then (r, []) else Pushed(r, p.value);
      FedAppend(one.0, a[1..], b);
      assert (a + b)[0] == a[0];
      var first := FedAll(one.0, a[1..]);
      var second := FedAll(first.0, b);
      assert one.1 + (first.1 + second.1) == one.1 + first.1 + second.1;
    }
  }

  predicate Wellformed(payloads: seq<seq<byte>>) {
    forall i :: 0 <= i < |payloads| ==> !Malformed(payloads[i])
  }

  lemma AbsorbedStamp(r: Reassembly, p: seq<byte>, ts: u32)
    ensures Absorbed(r.(ts := ts), p) == Absorbed(r, p).(ts := ts)
  {}

  /** The packets of a unit are absorbed silently, then everything pending comes out with the last of them. */
  lemma {:induction false} SentFed(r: Reassembly, payloads: seq<seq<byte>>, payloadType: byte, ssrc: u32, ts: u32, seqNo: u16)
    requires payloads != [] && Wellformed(payloads)
    ensures
      var s := AbsorbedAll(r.(ts := ts), payloads);
      FedAll(r, Sent(payloads, payloadType, ssrc, ts, seqNo))
      == (s.(pending := []), if s.pending == [] then [] else [AccessUnit(s.pending, s.ts)])
    decreases |payloads|
  {
    hide Absorbed, Packed, ParseRTP;
    var p := Packet(payloadType % 0x80, |payloads| == 1, seqNo, ts, ssrc, payloads[0]);
    PacketRead(p, BARE);
    var s := Absorbed(r.(ts := ts), payloads[0]);
    AbsorbedStamp(r.(ts := ts), payloads[0], ts);
    assert s.(ts := ts) == s;
    var later := Sent(payloads[1..], payloadType, ssrc, ts, U16(seqNo + 1));
    assert Sent(payloads, payloadType, ssrc, ts, seqNo)[1..] == later;
    if |payloads| > 1 {
      SentFed(s, payloads[1..], payloadType, ssrc, ts, U16(seqNo + 1));
      assert [] + FedAll(s, later).1 == FedAll(s, later).1;
    } else {
      var done := Pushed(r, p);
      assert done.1 + FedAll(done.0, later).1 == done.1;
    }
  }

  predicate AllSurvive(nals: seq<seq<byte>>, mtu: int) {
    forall i :: 0 <= i < |nals| ==> Survives(nals[i], mtu)
  }

  lemma {:induction false} UnitsAbsorbed(r: Reassembly, nals: seq<seq<byte>>, mtu: int)
    requires mtu >= 3 && AllSurvive(nals, mtu)
    ensures
      var s := AbsorbedAll(r, Payloads(nals, mtu));
      s.pending == r.pending + nals && s.ts == r.ts
    ensures Wellformed(Payloads(nals, mtu)) && |Payloads(nals, mtu)| >= |nals|
    decreases |nals|
  {
    hide Absorbed, Fragments;
    if nals != [] {
      var first := Pieces(nals[0], mtu);
      var s := AbsorbedAll(r, first);
      UnitAbsorbed(r, nals[0], mtu);
      PiecesFit(nals[0], mtu);
      AbsorbedAppend(r, first, Payloads(nals[1..], mtu));
      UnitsAbsorbed(s, nals[1..], mtu);
      assert r.pending + [nals[0]] + nals[1..] == r.pending + nals;
    }
  }

  lemma {:induction false} Silent(r: Reassembly, payloads: seq<seq<byte>>, payloadType: byte, ssrc: u32, ts: u32, seqNo: u16, k: nat)
    requires k < |payloads|
    ensures FedAll(r, Sent(payloads, payloadType, ssrc, ts, seqNo)[..k]).1 == []
    decreases k
  {
    hide Absorbed, Packed, ParseRTP;
    if k > 0 {
      var p := Packet(payloadType % 0x80, |payloads| == 1, seqNo, ts, ssrc, payloads[0]);
      PacketRead(p, BARE);
      var later := Sent(payloads[1..], payloadType, ssrc, ts, U16(seqNo + 1));
      assert Sent(payloads, payloadType, ssrc, ts, seqNo)[..k][1..] == later[..k - 1];
      Silent(Pushed(r, p).0, payloads[1..], payloadType, ssrc, ts, U16(seqNo + 1), k - 1);
    }
  }

  /**
    Whatever the reassembler holds, an access unit of surviving units comes out whole, with its
    timestamp, at its marker packet and not before; units left pending come out in front of it.
   */
  lemma AccessUnitReceived(r: Reassembly, nals: seq<seq<byte>>, mtu: int, payloadType: byte, ssrc: u32, ts: u32, seqNo: u16)
    requires mtu >= 3 && nals != [] && AllSurvive(nals, mtu)
    ensures
      var packets := Sent(Payloads(nals, mtu), payloadType, ssrc, ts, seqNo);
      && (forall k :: 0 <= k < |packets| ==> FedAll(r, packets[..k]).1 == [])
      && FedAll(r, packets).1 == [AccessUnit(r.pending + nals, ts)]
      && FedAll(r, packets).0.pending == []
  {
    var payloads := Payloads(nals, mtu);
    UnitsAbsorbed(r.(ts := ts), nals, mtu);
    SentFed(r, payloads, payloadType, ssrc, ts, seqNo);
    forall k | 0 <= k < |payloads|
      ensures FedAll(r, Sent(payloads, payloadType, ssrc, ts, seqNo)[..k]).1 == []
    {
      Silent(r, payloads, payloadType, ssrc, ts, seqNo, k);
    }
  }

  // ----- Streams, joined anywhere -----

  predicate Carried(units: seq<AccessUnit>, mtu: int) {
    forall i :: 0 <= i < |units| ==> units[i].nals != [] && AllSurvive(units[i].nals, mtu)
  }

  function UnitPackets(unit: AccessUnit, mtu: int, payloadType: byte, ssrc: u32, seqNo: u16): seq<seq<byte>> {
    Sent(Payloads(unit.nals, mtu), payloadType, ssrc, unit.ts, seqNo)
  }

  /** Access units sent one after another through one packer. */
  function Stream(units: seq<AccessUnit>, mtu: int, payloadType: byte, ssrc: u32, seqNo: u16): seq<seq<byte>> {
    if units == [] then []
    else
      var first := UnitPackets(units[0], mtu, payloadType, ssrc, seqNo);
      first + Stream(units[1..], mtu, payloadType, ssrc, U16(seqNo + |first|))
  }

  lemma UnitReceived(r: Reassembly, unit: AccessUnit, mtu: int, payloadType: byte, ssrc: u32, seqNo: u16)
    requires mtu >= 3 && unit.nals != [] && AllSurvive(unit.nals, mtu) && r.pending == []
    ensures
      var s := FedAll(r, UnitPackets(unit, mtu, payloadType, ssrc, seqNo));
      s.1 == [unit] && s.0.pending == []
  {
    AccessUnitReceived(r, unit.nals, mtu, payloadType, ssrc, unit.ts, seqNo);
    assert r.pending + unit.nals == unit.nals;
  }

  lemma {:induction false} StreamReceived(r: Reassembly, units: seq<AccessUnit>, mtu: int, payloadType: byte, ssrc: u32, seqNo: u16)
    requires mtu >= 3 && Carried(units, mtu) && r.pending == []
    ensures FedAll(r, Stream(units, mtu, payloadType, ssrc, seqNo)).1 == units
    decreases |units|
  {
    hide AllSurvive, UnitPackets, U16, ParseRTP, Pushed;
    if units != [] {
      var first := UnitPackets(units[0], mtu, payloadType, ssrc, seqNo);
      var next := U16(seqNo + |first|);
      var rest := Stream(units[1..], mtu, payloadType, ssrc, next);
      UnitReceived(r, units[0], mtu, payloadType, ssrc, seqNo);
      var s := FedAll(r, first).0;
      StreamReceived(s, units[1..], mtu, payloadType, ssrc, next);
      FedAppend(r, first, rest);
      assert [units[0]] + units[1..] == units;
    }
  }

  predicate Closing(p: seq<byte>) {
    !Malformed(p) && (1 <= NalType(p[0]) <= 23 || (NalType(p[0]) == 28 && p[1] / 0x40 % 2 == 1))
  }

  lemma {:induction false} LastCloses(nals: seq<seq<byte>>, mtu: int)
    requires mtu >= 3 && nals != [] && AllSurvive(nals, mtu)
    ensures var ps := Payloads(nals, mtu); ps != [] && Closing(ps[|ps| - 1])
  {
    var first := Pieces(nals[0], mtu);
    PiecesFit(nals[0], mtu);
    if |nals| == 1 {
      assert Payloads(nals, mtu) == first;
      if |nals[0]| > mtu {
        FragmentsFit(nals[0][0], nals[0][1..], mtu - 2, 0);
      }
    } else {
      LastCloses(nals[1..], mtu);
    }
  }

  lemma {:induction false} ClosedPending(r: Reassembly, ps: seq<seq<byte>>)
    requires ps != [] && Closing(ps[|ps| - 1])
    ensures AbsorbedAll(r, ps).pending != []
    decreases |ps|
  {
    if |ps| > 1 {
      ClosedPending(Absorbed(r, ps[0]), ps[1..]);
    }
  }

  lemma DropLater<T>(a: T, b: seq<T>, k: nat)
    requires 0 < k <= 1 + |b|
    ensures ([a] + b)[k..] == b[k - 1..]
  {}

  lemma SentFirst(payloads: seq<seq<byte>>, payloadType: byte, ssrc: u32, ts: u32, seqNo: u16)
    requires payloads != []
    ensures
      Sent(payloads, payloadType, ssrc, ts, seqNo)
      == [Packed(Packet(payloadType % 0x80, |payloads| == 1, seqNo, ts, ssrc, payloads[0]), BARE)]
         + Sent(payloads[1..], payloadType, ssrc, ts, U16(seqNo + 1))
  {
    hide Packed;
  }

  lemma NumberAfter(seqNo: u16, k: nat)
    ensures k == 0 ==> U16(seqNo + k) == seqNo
    ensures k > 0 ==> U16(U16(seqNo + 1) + (k - 1)) == U16(seqNo + k)
  {
    SameU16(U16(seqNo + 1) as int + (k - 1), seqNo as int + k, -((seqNo as int + 1) / 0x1_0000));
  }

  lemma {:induction false} SentDrop(payloads: seq<seq<byte>>, payloadType: byte, ssrc: u32, ts: u32, seqNo: u16, k: nat)
    requires k < |payloads|
    ensures Sent(payloads, payloadType, ssrc, ts, seqNo)[k..] == Sent(payloads[k..], payloadType, ssrc, ts, U16(seqNo + k))
    decreases k
  {
    hide Packed, Sent, U16;
    SentFirst(payloads, payloadType, ssrc, ts, seqNo);
    NumberAfter(seqNo, k);
    if k == 0 {
      assert payloads[0..] == payloads;
      var sent := Sent(payloads, payloadType, ssrc, ts, seqNo);
      assert sent[0..] == sent;
    } else {
      SentDrop(payloads[1..], payloadType, ssrc, ts, U16(seqNo + 1), k - 1);
      assert payloads[1..][k - 1..] == payloads[k..];
      DropLater(Packed(Packet(payloadType % 0x80, |payloads| == 1, seqNo, ts, ssrc, payloads[0]), BARE),
                Sent(payloads[1..], payloadType, ssrc, ts, U16(seqNo + 1)), k);
    }
  }

  /** What is left of a unit joined after k packets comes out once, at its marker. */
  lemma CutUnit(r: Reassembly, cut: AccessUnit, k: nat, mtu: int, payloadType: byte, ssrc: u32, seqNo: u16)
    requires mtu >= 3 && cut.nals != [] && AllSurvive(cut.nals, mtu)
    requires k < |UnitPackets(cut, mtu, payloadType, ssrc, seqNo)|
    ensures
      var s := FedAll(r, UnitPackets(cut, mtu, payloadType, ssrc, seqNo)[k..]);
      |s.1| == 1 && s.0.pending == []
  {
    var payloads := Payloads(cut.nals, mtu);
    UnitsAbsorbed(r, cut.nals, mtu);
    LastCloses(cut.nals, mtu);
    SentDrop(payloads, payloadType, ssrc, cut.ts, seqNo, k);
    hide Payloads, Sent, FedAll, AbsorbedAll, AllSurvive, Closing, Malformed;
    SentFed(r, payloads[k..], payloadType, ssrc, cut.ts, U16(seqNo + k));
    ClosedPending(r.(ts := cut.ts), payloads[k..]);
  }

  /**
    A receiver in any state, joining after any k packets of an access unit: that unit's marker packet
    clears it, and every later access unit comes out exactly.
   */
  lemma JoinedStream(r: Reassembly, cut: AccessUnit, k: nat, units: seq<AccessUnit>,
                     mtu: int, payloadType: byte, ssrc: u32, seqNo: u16)
    requires mtu >= 3 && Carried([cut] + units, mtu)
    requires k < |UnitPackets(cut, mtu, payloadType, ssrc, seqNo)|
    ensures
      var out := FedAll(r, Stream([cut] + units, mtu, payloadType, ssrc, seqNo)[k..]).1;
      |out| == 1 + |units| && out[1..] == units
  {
    hide FedAll, UnitPackets, AllSurvive;
    var first := UnitPackets(cut, mtu, payloadType, ssrc, seqNo);
    var rest := Stream(units, mtu, payloadType, ssrc, U16(seqNo + |first|));
    assert ([cut] + units)[0] == cut && ([cut] + units)[1..] == units;
    assert Carried(units, mtu) by {
      assert forall i :: 0 <= i < |units| ==> units[i] == ([cut] + units)[1 + i];
    }
    assert (first + rest)[k..] == first[k..] + rest;
    CutUnit(r, cut, k, mtu, payloadType, ssrc, seqNo);
    FedAppend(r, first[k..], rest);
    StreamReceived(FedAll(r, first[k..]).0, units, mtu, payloadType, ssrc, U16(seqNo + |first|));
  }

  // ----- Aggregation packets -----

  /** The units of RFC 6184 section 5.7.1, each behind its 16-bit size. */
  function Sized(nals: seq<seq<byte>>): seq<byte>
    requires forall i :: 0 <= i < |nals| ==> |nals[i]| < 0x1_0000
  {
    if nals == [] then []
    else [|nals[0]| / 0x100, |nals[0]| % 0x100] + nals[0] + Sized(nals[1..])
  }

  /** What is left where the walk stops: less than a size, or a size that promises too much. */
  predicate CutShort(tail: seq<byte>) {
    |tail| < 2 || tail[0] as int * 0x100 + tail[1] as int > |tail| - 2
  }

  lemma SizedRead(nal: seq<byte>, rest: seq<byte>)
    requires |nal| < 0x1_0000
    ensures Aggregated([|nal| / 0x100, |nal| % 0x100] + nal + rest) == [nal] + Aggregated(rest)
  {
    var body := [|nal| / 0x100, |nal| % 0x100] + nal + rest;
    assert body[2..2 + |nal|] == nal && body[2 + |nal|..] == rest;
    assert Get16(body) == |nal|;
  }

  lemma {:induction false} AllAggregated(nals: seq<seq<byte>>, tail: seq<byte>)
    requires (forall i :: 0 <= i < |nals| ==> |nals[i]| < 0x1_0000) && CutShort(tail)
    ensures Aggregated(Sized(nals) + tail) == nals
    decreases |nals|
  {
    if nals == [] {
      assert [] + tail == tail;
    } else {
      AllAggregated(nals[1..], tail);
      SizedRead(nals[0], Sized(nals[1..]) + tail);
      hide Aggregated;
      Regroup([|nals[0]| / 0x100, |nals[0]| % 0x100] + nals[0], Sized(nals[1..]), tail);
    }
  }

  /**
    An aggregation packet, whatever its other header bits and whatever is cut short behind its units,
    adds exactly these units to the pending ones, and with the marker all of them come out.
   */
  lemma AggregationPushed(r: Reassembly, header: byte, nals: seq<seq<byte>>, tail: seq<byte>, p: Packet)
    requires header % 0x20 == 24 && CutShort(tail) && forall i :: 0 <= i < |nals| ==> |nals[i]| < 0x1_0000
    requires p.payload == [header] + (Sized(nals) + tail)
    ensures
      var all := r.pending + nals;
      Pushed(r, p)
      == if p.marker && all != [] then (Reassembly(r.fuBuf, [], p.timestamp), [AccessUnit(all, p.timestamp)])
         else (Reassembly(r.fuBuf, all, p.timestamp), [])
  {
    hide Aggregated, Sized;
    AllAggregated(nals, tail);
    assert p.payload[1..] == Sized(nals) + tail;
  }

  // ----- Tags there and back -----

  /** What a video tag says besides its header bits. */
  datatype Tag = Tag(data: seq<byte>, timeStamp: u32, cts: u32)

  /** The tag `handleVideoRTP` rebuilds from an access unit: it never sets a composition offset. */
  function Retagged(unit: AccessUnit): Tag {
    Tag(Avcc(unit.nals), unit.ts / 90, 0)
  }

  /** The millisecond at which a tag is shown. */
  function Shown(tag: Tag): u32 {
    U32(tag.timeStamp + tag.cts)
  }

  lemma ClockKept(time: u32)
    ensures U32(time * 90) / 90 == time <==> time * 90 < 0x1_0000_0000
  {}

  /**
    An FLV video tag served over RTSP and published back: the same data always. The whole tag comes back
    exactly when it has no composition offset and its time fits the 90 kHz clock; the time it is shown at
    is kept exactly when that fits the clock.
   */
  lemma TagRoundTrip(r: Reassembly, nals: seq<seq<byte>>, payloadType: byte, ssrc: u32, timeStamp: u32, cts: u32, seqNo: u16)
    requires r.pending == [] && nals != [] && Prefixable(nals) && AllSurvive(nals, DEFAULT_MTU)
    ensures
      var tag := Tag(Avcc(nals), timeStamp, cts);
      var out := FedAll(r, Sent(Payloads(Split(tag.data), DEFAULT_MTU), payloadType, ssrc, U32(Shown(tag) * 90), seqNo)).1;
      && |out| == 1
      && Retagged(out[0]).data == tag.data
      && (Retagged(out[0]) == tag <==> cts == 0 && timeStamp * 90 < 0x1_0000_0000)
      && (Shown(Retagged(out[0])) == Shown(tag) <==> Shown(tag) * 90 < 0x1_0000_0000)
  {
    var time: u32 := Shown(Tag(Avcc(nals), timeStamp, cts));
    hide Payloads, Sent, FedAll, Avcc, Split, AllSurvive, Prefixable;
    SplitJoined(nals);
    AccessUnitReceived(r, nals, DEFAULT_MTU, payloadType, ssrc, U32(time * 90), seqNo);
    assert r.pending + nals == nals;
    ClockKept(time);
  }
}
