/**
  The transport-stream multiplexer of libmpeg/ts.go: `NewTs`, `AdaptationField.Marshal`
  and `TS.Mux`.
 */
module TsMux {
  import opened Bytes
  import opened Pes
  import opened Psi
  import opened Wrappers

  const PAT_PID: u16 := 0x0000
  const PMT_PID: u16 := 0x1001
  const AUDIO_PID: u16 := 0x0101
  const VIDEO_PID: u16 := 0x0100

  predicate Media(pid: u16) {
    pid == AUDIO_PID || pid == VIDEO_PID
  }

  // ----- Adaptation field -----

  datatype AdaptationField = AdaptationField(
    length: byte, discontinuity: byte, randomAccess: byte, priority: byte, pcrFlag: byte,
    opcrFlag: byte, splicingPointFlag: byte, privateDataFlag: byte, extensionFlag: byte,
    pcrBase: u64, pcrExtension: u16)

  const NO_FIELD: AdaptationField := AdaptationField(0, 0, 0, 0, 0, 0, 0, 0, 0, 0, 0)

  /** One-bit fields in a row, the first in the highest place. */
  function Octet(bits: seq<byte>): (v: nat)
    requires |bits| <= 8
    ensures v < [1, 2, 4, 8, 0x10, 0x20, 0x40, 0x80, 0x100][|bits|]
  {
    if bits == [] then 0 else Octet(bits[..|bits| - 1]) * 2 + bits[|bits| - 1] % 2
  }

  function FlagByte(af: AdaptationField): byte {
    Octet([af.discontinuity, af.randomAccess, af.priority, af.pcrFlag,
           af.opcrFlag, af.splicingPointFlag, af.privateDataFlag, af.extensionFlag])
  }

  function PcrBytes(base: u64, extension: u16): (b: seq<byte>)
    ensures |b| == 6
  {
    [U8(base / 0x200_0000), U8(base / 0x2_0000), U8(base / 0x200), U8(base / 2), base % 2 * 0x80 + 0x7e, U8(extension)]
  }

  /** The field's bytes, stuffed with 0xff to its length, or nothing when the length is too small. */
  function FieldBytes(af: AdaptationField): (b: Option<seq<byte>>)
    ensures b.Some? ==> |b.value| == af.length + 1 && b.value[0] == af.length
    ensures b.None? <==> af.length < 1 || (af.pcrFlag == 1 && af.length < 7)
  {
    if af.length < 1 || (af.pcrFlag == 1 && af.length < 7) then None
    else
      var b := [af.length, FlagByte(af)] + if af.pcrFlag == 1 then PcrBytes(af.pcrBase, af.pcrExtension) else [];
      Some(b + Repeat(0xff, af.length + 1 - |b|))
  }

  method Fill0XFF(writer: EasyWriter, n: int)
    modifies writer
    ensures n >= 0 ==> writer.written == old(writer.written) + Repeat(0xff, n)
    ensures n < 0 ==> writer.written == old(writer.written)
  {
    var i := 0;
    while i < n
      invariant n >= 0 ==> 0 <= i <= n && writer.written == old(writer.written) + Repeat(0xff, i)
      invariant n < 0 ==> i == 0 && writer.written == old(writer.written)
    {
      writer.WriteFull([0xff]);
      i := i + 1;
    }
  }

  /** The length plus one is the buffer's capacity and the result, a byte in the source. */
  method MarshalField(af: AdaptationField, writer: EasyWriter) returns (n: byte, err: bool)
    requires af.length < 255
    modifies writer
    ensures err <==> FieldBytes(af).None?
    ensures err ==> n == 0 && writer.written == old(writer.written)
    ensures !err ==> n == af.length + 1 && writer.written == old(writer.written) + FieldBytes(af).value
  {
    if af.length < 1 {
      return 0, true;
    }
    var capacity := af.length as int + 1;
    var b := [af.length];
    b := b + [FlagByte(af)];
    if af.pcrFlag == 1 {
      if af.length < 7 {
        return 0, true;
      }
      b := b + PcrBytes(af.pcrBase, af.pcrExtension);
    }
    writer.WriteFull(b);
    if |b| < capacity {
      Fill0XFF(writer, capacity - |b|);
    }
    return af.length + 1, false;
  }

  // ----- One packet -----

  /** What a packet carries: one PES unit, or a section of either table. */
  datatype Payload = PesPayload(pes: PES) | PatPayload(pat: Pat) | PmtPayload(pmt: Pmt)

  function PacketHeader(pid: u16, start: bool, fieldControl: byte, cc: byte): (h: seq<byte>)
    requires fieldControl < 4
    ensures |h| == 4 && h[0] == 0x47
  {
    [0x47, (if start then 0x40 else 0) + pid / 0x100 % 0x20, pid % 0x100, fieldControl * 0x10 + cc % 0x10]
  }

  /** The adaptation field attached to a packet, and the two-bit field that announces it. */
  function Attached(pid: u16, key: bool, dts: u64, remain: int): (r: (byte, Option<AdaptationField>))
    requires remain >= 0
    ensures r.0 < 4
  {
    var first := NO_FIELD.(length := 7, randomAccess := 1, pcrFlag := 1, pcrBase := dts);
    var room := if key then 176 else 184;
    if Media(pid) && remain < room then (3, Some((if key then first else NO_FIELD).(length := U8(room - remain - 1))))
    else if key then (3, Some(first))
    else if Media(pid) then (1, Some(NO_FIELD))
    else (1, None)
  }

  /** The announced field's bytes; an announced field that is rejected leaves nothing behind. */
  function FieldPart(a: (byte, Option<AdaptationField>)): (b: seq<byte>)
  {
    if a.0 == 3 && a.1.Some? && FieldBytes(a.1.value).Some? then FieldBytes(a.1.value).value else []
  }

  predicate FieldRejected(a: (byte, Option<AdaptationField>)) {
    a.0 == 3 && a.1.Some? && FieldBytes(a.1.value).None?
  }

  function Pointer(pid: u16, start: bool): (b: seq<byte>)
    ensures |b| <= 1
  {
    if (pid == PAT_PID || pid == PMT_PID) && start then [0] else []
  }

  /** Everything in front of the payload. */
  function Front(pid: u16, start: bool, cc: byte, key: bool, dts: u64, remain: int): (b: seq<byte>)
    requires remain >= 0
    ensures 4 <= |b| <= 188 && b[0] == 0x47
  {
    FrontFits(pid, start, key, dts, remain);
    var a := Attached(pid, key, dts, remain);
    PacketHeader(pid, start, a.0, cc) + FieldPart(a) + Pointer(pid, start)
  }

  lemma FrontIs(w: seq<byte>, pid: u16, start: bool, cc: byte, key: bool, dts: u64, remain: nat)
    ensures
      var a := Attached(pid, key, dts, remain);
      w + PacketHeader(pid, start, a.0, cc) + FieldPart(a) + Pointer(pid, start) == w + Front(pid, start, cc, key, dts, remain)
    ensures |Front(pid, start, cc, key, dts, remain)|
            == 4 + |FieldPart(Attached(pid, key, dts, remain))| + |Pointer(pid, start)|
  {
    hide PacketHeader, FieldPart, Attached, Pointer;
  }

  lemma FrontFits(pid: u16, start: bool, key: bool, dts: u64, remain: int)
    requires remain >= 0
    ensures |FieldPart(Attached(pid, key, dts, remain))| + |Pointer(pid, start)| <= 184
  {}

  /** The room a packet leaves for a media payload of which `remain` bytes are left. */
  function Room(key: bool, remain: nat): (r: nat)
    ensures r <= 184
  {
    if key then
      if remain >= 176 then 176 else if remain > 168 then 184 else 8 + remain
    else
      if remain >= 183 then 184 else remain
  }

  lemma FrontSize(pid: u16, start: bool, cc: byte, key: bool, dts: u64, remain: nat)
    requires Media(pid)
    ensures |Front(pid, start, cc, key, dts, remain)| == 188 - Room(key, remain)
    ensures FieldRejected(Attached(pid, key, dts, remain)) <==> if key then 168 < remain < 176 else remain == 183
  {
    hide FieldBytes, PacketHeader;
    FrontFits(pid, start, key, dts, remain);
    var a := Attached(pid, key, dts, remain);
    if a.0 == 3 {
      assert a.1.Some?;
      var af := a.1.value;
      assert af.pcrFlag == if key then 1 else 0;
      var room := if key then 176 else 184;
      if remain < room {
        assert af.length == room - remain - 1;
      }
    }
  }

  function Packet(front: seq<byte>, payload: seq<byte>): (p: seq<byte>)
    requires |front| + |payload| <= 188
    ensures |p| == 188
  {
    front + payload + Repeat(0xff, 188 - |front| - |payload|)
  }

  /** The source's map of continuity counters; a PID it has not seen counts from zero. */
  class Counters {
    var next: map<u16, byte>

    constructor ()
      ensures next == map[]
    {
      next := map[];
    }
  }

  function CounterOf(m: map<u16, byte>, pid: u16): byte {
    if pid in m then m[pid] else 0
  }

  function Bump(m: map<u16, byte>, pid: u16): map<u16, byte> {
    m[pid := (CounterOf(m, pid) + 1) % 0x10]
  }

  class TS {
    var syncByte: byte
    var transportErrorIndicator: byte
    var payloadUnitStartIndicator: byte
    var transportPriority: byte
    var pid: u16
    var transportScramblingControl: byte
    var adaptationFieldExist: byte
    var continuityCounter: byte
    var adaptationField: Option<AdaptationField>
    var payloadPointer: byte

    constructor (pid: u16, cc: Counters, firstTs: bool)
      modifies cc
      ensures Fresh(pid, firstTs, CounterOf(old(cc.next), pid))
      ensures cc.next == Bump(old(cc.next), pid)
    {
      syncByte := 0x47;
      transportErrorIndicator, transportPriority, transportScramblingControl := 0, 0, 0;
      payloadUnitStartIndicator := if firstTs then 1 else 0;
      this.pid := pid;
      adaptationFieldExist := 1;
      continuityCounter := CounterOf(cc.next, pid);
      adaptationField := None;
      payloadPointer := 0;
      new;
      cc.next := cc.next[pid := (CounterOf(cc.next, pid) + 1) % 0x10];
    }

    ghost predicate Fixed()
      reads this
    {
      && syncByte == 0x47 && transportErrorIndicator == 0 && transportPriority == 0
      && transportScramblingControl == 0 && payloadPointer == 0 && payloadUnitStartIndicator < 2
    }

    ghost predicate Start()
      reads this
    {
      payloadUnitStartIndicator == 1
    }

    ghost predicate Fresh(pid: u16, start: bool, cc: byte)
      reads this
    {
      && Fixed() && adaptationFieldExist == 1 && adaptationField == None
      && this.pid == pid && Start() == start && continuityCounter == cc
    }

    /** Attaches the adaptation field that makes the payload end with the packet. */
    method Attach(psi: Payload, firstTSofKeyFrame: bool, dts: u64) returns (ghost remain: nat)
      requires adaptationFieldExist == 1 && adaptationField == None
      requires psi.PesPayload? ==> psi.pes.Valid() && Media(pid)
      modifies `adaptationFieldExist, `adaptationField, if psi.PesPayload? then {psi.pes} else {}
      ensures (adaptationFieldExist, adaptationField) == Attached(pid, firstTSofKeyFrame, dts, remain)
      ensures RemainIs(psi, remain)
      ensures psi.PesPayload? ==>
                && psi.pes.Valid() && psi.pes.Prepared() && psi.pes.Source() == old(psi.pes.Source())
                && psi.pes.index == old(psi.pes.index) && psi.pes.headerIndex == old(psi.pes.headerIndex)
    {
      hide Header;
      var writable: byte := 188;
      remain := if psi.PatPayload? then RemainPat(psi.pat) else if psi.PmtPayload? then RemainPmt(psi.pmt) else 0;
      if firstTSofKeyFrame {
        adaptationFieldExist := 3;
        adaptationField := Some(NO_FIELD.(length := 7, randomAccess := 1, pcrFlag := 1, pcrBase := dts));
      }
      if pid == AUDIO_PID || pid == VIDEO_PID {
        var headerSize: byte := 4;
        if firstTSofKeyFrame {
          headerSize := headerSize + 8;
        } else {
          adaptationField := Some(NO_FIELD);
        }
        var r := RemainOf(psi);
        remain := r;
        if r < U8(writable - headerSize) {
          adaptationFieldExist := 3;
          adaptationField := Some(adaptationField.value.(length := U8(U8(writable - headerSize) - r - 1)));
        }
      }
    }

    function HeaderBytes(): (b: seq<byte>)
      requires Fixed() && adaptationFieldExist < 4
      reads this
      ensures b == PacketHeader(pid, Start(), adaptationFieldExist, continuityCounter)
    {
      [syncByte,
       transportErrorIndicator % 2 * 0x80 + payloadUnitStartIndicator % 2 * 0x40 + transportPriority % 2 * 0x20 + pid / 0x100 % 0x20,
       pid % 0x100,
       transportScramblingControl % 4 * 0x40 + adaptationFieldExist % 4 * 0x10 + continuityCounter % 0x10]
    }

    /** Writes the packet header, the announced adaptation field and the pointer. */
    method WriteFront(writer: EasyWriter, ghost key: bool, ghost dts: u64, ghost remain: nat)
      returns (writable: byte, err: bool)
      requires Fixed()
      requires (adaptationFieldExist, adaptationField) == Attached(pid, key, dts, remain)
      modifies writer
      ensures writer.written == old(writer.written) + Front(pid, Start(), continuityCounter, key, dts, remain)
      ensures writable == 188 - |Front(pid, Start(), continuityCounter, key, dts, remain)|
      ensures err <==> FieldRejected(Attached(pid, key, dts, remain))
    {
      hide FieldBytes, Attached, HeaderBytes, PacketHeader, Front, U8;
      ghost var before := writer.written;
      writable, err := 188, false;
      var b := HeaderBytes();
      writer.WriteFull(b);
      Difference(writable, |b|);
      writable := U8(writable - U8(|b|));
      FrontFits(pid, Start(), key, dts, remain);
      if adaptationFieldExist == 3 && adaptationField.Some? {
        var n;
        n, err := MarshalField(adaptationField.value, writer);
        ByteMinus(writable, n);
        writable := U8(writable - n);
      }
      ghost var part := FieldPart(Attached(pid, key, dts, remain));
      assert writer.written == before + b + part;
      if (pid == PAT_PID || pid == PMT_PID) && payloadUnitStartIndicator == 1 {
        writer.WriteFull([payloadPointer]);
        ByteMinus(writable, 1);
        writable := U8(writable - 1);
      }
      assert writer.written == before + b + part + Pointer(pid, Start());
      FrontIs(before, pid, Start(), continuityCounter, key, dts, remain);
    }

    /** Writes one packet, whatever happens, and reports whether the payload is finished and whether it went wrong. */
    method Mux(psi: Payload, firstTSofKeyFrame: bool, dts: u64, writer: EasyWriter)
      returns (finish: bool, err: bool, ghost order: seq<u16>)
      requires Fresh(pid, Start(), continuityCounter)
      requires psi.PesPayload? ==> psi.pes.Valid() && Media(pid)
      modifies `adaptationFieldExist, `adaptationField, writer, if psi.PesPayload? then {psi.pes} else {}
      ensures psi.PesPayload? ==>
                && psi.pes.Valid() && psi.pes.Prepared() && psi.pes.Source() == old(psi.pes.Source())
                && var p := old(psi.pes.Position());
                && var u := psi.pes.Unit();
                && p <= |u|
                && Cuts(CutAt(pid, Start(), continuityCounter, firstTSofKeyFrame, dts, u, p,
                              if old(psi.pes.index) == 0 then |u| else |u| - p),
                        old(writer.written), writer.written, psi.pes.Position() - p, finish, err)
      ensures psi.PatPayload? ==>
                && Enumerates(order, psi.pat.programs)
                && Cuts(SectionCut(pid, Start(), continuityCounter, firstTSofKeyFrame, dts, PatSection(psi.pat, order)),
                        old(writer.written), writer.written, if finish then RemainPat(psi.pat) else 0, finish, err)
      ensures psi.PmtPayload? ==>
                && Enumerates(order, psi.pmt.streams)
                && Cuts(SectionCut(pid, Start(), continuityCounter, firstTSofKeyFrame, dts, PmtSection(psi.pmt, order)),
                        old(writer.written), writer.written, if finish then RemainPmt(psi.pmt) else 0, finish, err)
    {
      hide Header, Front, Attached, FieldRejected, Room, PatSection, PmtSection, CutAt, SectionCut, Cuts, Packet, RemainPat, RemainPmt,
        Enumerates, U8;
      var remain := Attach(psi, firstTSofKeyFrame, dts);
      ghost var w := writer.written;
      var writable, err2 := WriteFront(writer, firstTSofKeyFrame, dts, remain);
      if psi.PesPayload? {
        FrontSize(pid, Start(), continuityCounter, firstTSofKeyFrame, dts, remain);
        RoomForHeader(firstTSofKeyFrame, remain);
      }
      var err3;
      ghost var payload;
      finish, err3, order, payload := WriteRest(psi, writer, writable, w, Front(pid, Start(), continuityCounter, firstTSofKeyFrame, dts, remain));
      err := err2 || err3;
      if psi.PesPayload? {
        PesCut(pid, Start(), continuityCounter, firstTSofKeyFrame, dts, psi.pes.Unit(), old(psi.pes.Position()), remain,
               w, writer.written, |payload|, finish, err);
      } else {
        SectionSizes(psi, order);
        SectionCutIs(pid, Start(), continuityCounter, firstTSofKeyFrame, dts, SectionOf(psi, order), w, writer.written, finish, err, payload);
      }
    }
  }

  lemma ByteMinus(writable: byte, n: byte)
    requires n <= writable
    ensures U8(writable - n) == writable - n
  {}

  lemma Difference(writable: byte, n: nat)
    requires n <= writable
    ensures U8(writable - U8(n)) == writable - n
  {}

  lemma Layout(w: seq<byte>, front: seq<byte>, payload: seq<byte>)
    requires |front| + |payload| <= 188
    ensures w + front + payload + Repeat(0xff, 188 - |front| - |payload|) == w + Packet(front, payload)
  {}

  lemma RoomForHeader(key: bool, remain: nat)
    ensures Room(key, remain) >= Min(remain, 176)
  {}

  lemma PesCut(pid: u16, start: bool, cc: byte, key: bool, dts: u64, u: seq<byte>, p: nat, remain: nat,
               before: seq<byte>, after: seq<byte>, n: nat, finish: bool, err: bool)
    requires p + n <= |u|
    requires
      var front := Front(pid, start, cc, key, dts, remain);
      var room := 188 - |front|;
      && n == Min(room, |u| - p)
      && after == before + Packet(front, u[p..p + n])
      && (finish <==> room > 0 && p + n == |u|)
      && (err <==> FieldRejected(Attached(pid, key, dts, remain)) || room == 0)
    ensures Cuts(CutAt(pid, start, cc, key, dts, u, p, remain), before, after, n, finish, err)
  {
    hide Front, Attached, FieldRejected, Packet;
  }

  lemma SectionCutIs(pid: u16, start: bool, cc: byte, key: bool, dts: u64, section: seq<byte>,
                     before: seq<byte>, after: seq<byte>, finish: bool, err: bool, payload: seq<byte>)
    requires
      var front := Front(pid, start, cc, key, dts, |section|);
      && payload == (if finish then section else [])
      && (finish <==> 188 - |front| >= |section|)
      && after == before + Packet(front, payload)
      && (err <==> FieldRejected(Attached(pid, key, dts, |section|)) || !finish)
    ensures Cuts(SectionCut(pid, start, cc, key, dts, section), before, after, |payload|, finish, err)
  {
    hide Front, Attached, FieldRejected, Packet;
  }

  ghost function SectionOf(psi: Payload, order: seq<u16>): seq<byte>
    requires psi.PatPayload? ==> Enumerates(order, psi.pat.programs)
    requires psi.PmtPayload? ==> Enumerates(order, psi.pmt.streams)
  {
    match psi
    case PesPayload(_) => []
    case PatPayload(pat) => PatSection(pat, order)
    case PmtPayload(pmt) => PmtSection(pmt, order)
  }

  ghost predicate Cuts(c: Cut, before: seq<byte>, after: seq<byte>, taken: int, finish: bool, err: bool) {
    after == before + c.packet && taken == c.taken && finish == c.finish && err == c.err
  }

  lemma SectionSizes(psi: Payload, order: seq<u16>)
    ensures psi.PatPayload? && Enumerates(order, psi.pat.programs) ==> |PatSection(psi.pat, order)| == RemainPat(psi.pat)
    ensures psi.PmtPayload? && Enumerates(order, psi.pmt.streams) ==> |PmtSection(psi.pmt, order)| == RemainPmt(psi.pmt)
  {
    if psi.PatPayload? && Enumerates(order, psi.pat.programs) {
      EnumerationSize(order, psi.pat.programs);
    } else if psi.PmtPayload? && Enumerates(order, psi.pmt.streams) {
      EnumerationSize(order, psi.pmt.streams);
    }
  }

  datatype Cut = Cut(packet: seq<byte>, taken: int, finish: bool, err: bool)

  /** The packet cut from u at p. */
  function CutAt(pid: u16, start: bool, cc: byte, key: bool, dts: u64, u: seq<byte>, p: nat, remain: nat): Cut
    requires p <= |u|
  {
    var front := Front(pid, start, cc, key, dts, remain);
    var room := 188 - |front|;
    var n := Min(room, |u| - p);
    Cut(Packet(front, u[p..p + n]), n, room > 0 && p + n == |u|,
        FieldRejected(Attached(pid, key, dts, remain)) || room == 0)
  }

  /** The packet of a section, which is written whole or, when it does not fit, replaced by stuffing. */
  function SectionCut(pid: u16, start: bool, cc: byte, key: bool, dts: u64, section: seq<byte>): Cut {
    var front := Front(pid, start, cc, key, dts, |section|);
    if 188 - |front| < |section| then Cut(Packet(front, []), 0, false, true)
    else Cut(Packet(front, section), |section|, true, FieldRejected(Attached(pid, key, dts, |section|)))
  }

  ghost predicate RemainIs(psi: Payload, r: nat)
    reads if psi.PesPayload? then {psi.pes} else {}
  {
    match psi
    case PesPayload(pes) => r == if pes.index == 0 then |pes.Unit()| else |pes.Unit()| - pes.Position()
    case PatPayload(pat) => r == RemainPat(pat)
    case PmtPayload(pmt) => r == RemainPmt(pmt)
  }

  /** The payload and the stuffing behind it. */
  method WriteRest(psi: Payload, writer: EasyWriter, writable: byte, ghost w: seq<byte>, ghost front: seq<byte>)
    returns (finish: bool, err: bool, ghost order: seq<u16>, ghost payload: seq<byte>)
    requires writer.written == w + front && |front| + writable == 188
    requires psi.PesPayload? ==>
               && psi.pes.Valid() && psi.pes.Prepared()
               && (writable == 0 || |psi.pes.headerData| - psi.pes.headerIndex <= writable)
    modifies writer, if psi.PesPayload? then {psi.pes} else {}
    ensures |payload| <= writable && writer.written == w + Packet(front, payload)
    ensures !psi.PesPayload? ==>
              && (psi.PatPayload? ==> Enumerates(order, psi.pat.programs))
              && (psi.PmtPayload? ==> Enumerates(order, psi.pmt.streams))
              && (finish <==> writable >= |SectionOf(psi, order)|)
              && (err <==> !finish)
              && payload == if finish then SectionOf(psi, order) else []
    ensures psi.PesPayload? ==>
              && psi.pes.Valid() && psi.pes.Prepared() && psi.pes.Source() == old(psi.pes.Source())
              && psi.pes.Unit() == old(psi.pes.Unit())
              && (err <==> writable == 0)
              && psi.pes.Position() == old(psi.pes.Position()) + |payload|
              && |payload| == Min(writable, |psi.pes.Unit()| - old(psi.pes.Position()))
              && payload == psi.pes.Unit()[old(psi.pes.Position())..psi.pes.Position()]
              && (finish <==> writable > 0 && psi.pes.Position() == |psi.pes.Unit()|)
  {
    hide PatSection, PmtSection, Header, Packet, U8;
    var n;
    n, finish, err, order, payload := MarshalOf(psi, writer, writable);
    var stuffing := U8(writable - U8(n));
    Difference(writable, n);
    Fill0XFF(writer, stuffing);
    Layout(w, front, payload);
    SectionSizes(psi, order);
  }

  method MarshalOf(psi: Payload, writer: EasyWriter, writable: nat)
    returns (n: nat, finish: bool, err: bool, ghost order: seq<u16>, ghost payload: seq<byte>)
    requires psi.PesPayload? ==>
               && psi.pes.Valid() && psi.pes.Prepared()
               && (writable == 0 || |psi.pes.headerData| - psi.pes.headerIndex <= writable)
    modifies writer, if psi.PesPayload? then {psi.pes} else {}
    ensures writer.written == old(writer.written) + payload && |payload| == n <= writable
    ensures psi.PatPayload? ==>
              && Enumerates(order, psi.pat.programs) && (err <==> writable < RemainPat(psi.pat)) && (finish <==> !err)
              && payload == if err then [] else PatSection(psi.pat, order)
    ensures psi.PmtPayload? ==>
              && Enumerates(order, psi.pmt.streams) && (err <==> writable < RemainPmt(psi.pmt)) && (finish <==> !err)
              && payload == if err then [] else PmtSection(psi.pmt, order)
    ensures psi.PesPayload? ==>
              && psi.pes.Valid() && psi.pes.Prepared() && psi.pes.Source() == old(psi.pes.Source())
              && psi.pes.Unit() == old(psi.pes.Unit())
              && (err <==> writable == 0)
              && psi.pes.Position() == old(psi.pes.Position()) + n
              && n == Min(writable, |psi.pes.Unit()| - old(psi.pes.Position()))
              && payload == psi.pes.Unit()[old(psi.pes.Position())..psi.pes.Position()]
              && (finish <==> writable > 0 && psi.pes.Position() == |psi.pes.Unit()|)
  {
    hide PatSection, PmtSection, Header;
    match psi
    case PesPayload(pes) =>
      n, finish, err := pes.Marshal(writer, writable);
      order := [];
      payload := pes.Unit()[old(pes.Position())..pes.Position()];
    case PatPayload(pat) =>
      n, finish, err, order := MarshalPat(pat, writer, writable);
      payload := if err then [] else PatSection(pat, order);
      SectionSizes(psi, order);
    case PmtPayload(pmt) =>
      n, finish, err, order := MarshalPmt(pmt, writer, writable);
      payload := if err then [] else PmtSection(pmt, order);
      SectionSizes(psi, order);
  }

  method RemainOf(psi: Payload) returns (r: nat)
    requires psi.PesPayload? ==> psi.pes.Valid()
    modifies if psi.PesPayload? then {psi.pes} else {}
    ensures RemainIs(psi, r)
    ensures psi.PesPayload? ==>
              && psi.pes.Valid() && psi.pes.Prepared() && psi.pes.Source() == old(psi.pes.Source())
              && psi.pes.index == old(psi.pes.index) && psi.pes.headerIndex == old(psi.pes.headerIndex)
  {
    match psi
    case PesPayload(pes) => r := pes.Remain();
    case PatPayload(pat) => r := RemainPat(pat);
    case PmtPayload(pmt) => r := RemainPmt(pmt);
  }
}
