/**
  A whole segment as libhls/hls.go writes it, tables first and then units of both streams
  in any order with the tables again in between, and any other interleaving of these packets,
  read by a fresh demultiplexer.
 */
module TsSegment {
  import opened Bytes
  import Pes
  import opened Psi
  import opened TsMux
  import opened TsUnit
  import opened TsRoundTrip
  import D = TsDemux
  import opened Wrappers

  // ----- The tables of a segment -----

  /** The table of `newPAT`. */
  const SEGMENT_PAT: Pat := Pat(0x00, 1, 0x0d, 1, 0, 1, 0, 0, map[PMT_PID := 1])

  function SegmentPmt(videoType: byte): Pmt {
    Pmt(0x02, 1, 0x17, 1, 0, 1, 0, 0, VIDEO_PID, 0,
        map[AUDIO_PID := Stream(0xc0, 0x0f), VIDEO_PID := Stream(0xe0, videoType)])
  }

  /** Either order in which the source may range over the two streams. */
  predicate StreamOrder(order: seq<u16>) {
    order == [AUDIO_PID, VIDEO_PID] || order == [VIDEO_PID, AUDIO_PID]
  }

  lemma StreamOrders(order: seq<u16>, videoType: byte)
    requires Enumerates(order, SegmentPmt(videoType).streams)
    ensures StreamOrder(order)
  {
    var m := SegmentPmt(videoType).streams;
    EnumerationSize(order, m);
    assert m.Keys == {AUDIO_PID, VIDEO_PID};
    assert |m| == 2;
    assert order[0] in m && order[1] in m && order[0] != order[1];
    assert order == [order[0], order[1]];
  }

  function PatPacket(cc: byte): seq<byte> {
    SectionCut(PAT_PID, true, cc, false, 0, PatSection(SEGMENT_PAT, [PMT_PID])).packet
  }

  function PmtPacket(cc: byte, videoType: byte, order: seq<u16>): seq<byte>
    requires StreamOrder(order)
  {
    SectionCut(PMT_PID, true, cc, false, 0, PmtSection(SegmentPmt(videoType), order)).packet
  }

  lemma SectionRead(pid: u16, cc: byte, section: seq<byte>)
    requires pid == PAT_PID || pid == PMT_PID
    requires |section| <= 183
    ensures
      var c := SectionCut(pid, true, cc, false, 0, section);
      && Framed(c.packet) && D.PidOf(c.packet) == pid && c.packet[3] % 0x10 == cc % 0x10
      && !c.err && c.finish
      && D.PayloadOf(c.packet) == Some([0] + section + Repeat(0xff, 183 - |section|))
  {
    var h := PacketHeader(pid, true, 1, cc);
    var c := SectionCut(pid, true, cc, false, 0, section);
    HeaderFields(pid, true, 1, cc);
    assert Front(pid, true, cc, false, 0, |section|) == h + [] + [0];
    var rest := [0] + section + Repeat(0xff, 183 - |section|);
    assert c.packet == h + rest;
    ReadBehind(h, rest);
  }

  lemma PatBytes(h: seq<byte>, entry: seq<byte>, crc: seq<byte>, pad: seq<byte>)
    requires |h| == 8 && |entry| == 4 && |crc| == 4
    ensures
      var body := ([0] + (h + entry + crc) + pad)[1..];
      && body == h + entry + (crc + pad)
      && body[8..10] == entry[..2] && body[10..12] == entry[2..4]
  {
    var body := ([0] + (h + entry + crc) + pad)[1..];
    assert body == h + entry + (crc + pad);
    assert body[8..12] == entry;
    assert body[8..10] == body[8..12][..2] && body[10..12] == body[8..12][2..];
  }

  lemma PatRead(s: D.State, cc: byte)
    ensures Framed(PatPacket(cc)) && D.PidOf(PatPacket(cc)) == PAT_PID && PatPacket(cc)[3] % 0x10 == cc % 0x10
    ensures D.Step(s, PatPacket(cc)) == Some(s.(pmtPID := PMT_PID))
  {
    hide Crc, D.PayloadOf, D.PidOf, SectionCut, PatHeader, Put32;
    var section := PatSection(SEGMENT_PAT, [PMT_PID]);
    var entry := ProgramEntry(PMT_PID, 1);
    OneEntry();
    SectionRead(PAT_PID, cc, section);
    var h, pad := PatHeader(SEGMENT_PAT), Repeat(0xff, 183 - |section|);
    PatBytes(h, entry, Put32(Crc(h + entry)), pad);
    var body := ([0] + section + pad)[1..];
    assert entry == [0, 1, 0xf0, 0x01];
    assert Get16(body[8..10]) == 1 && Get16(body[10..12]) == 0xf001;
    assert D.FirstProgram(body, 8) == Some(PMT_PID);
  }

  lemma OneEntry()
    ensures PatEntries(SEGMENT_PAT, [PMT_PID]) == ProgramEntry(PMT_PID, 1)
  {
    assert [PMT_PID][..0] == [];
    assert PatEntries(SEGMENT_PAT, []) == [];
  }

  lemma TwoEntries(pmt: Pmt, a: u16, b: u16)
    requires a in pmt.streams && b in pmt.streams
    ensures PmtEntries(pmt, [a, b]) == StreamEntry(a, pmt.streams[a]) + StreamEntry(b, pmt.streams[b])
  {
    hide StreamEntry;
    assert [a, b][..1] == [a] && [a][..0] == [];
    assert PmtEntries(pmt, []) == [];
    assert PmtEntries(pmt, [a]) == PmtEntries(pmt, []) + StreamEntry(a, pmt.streams[a]);
    assert PmtEntries(pmt, [a, b]) == PmtEntries(pmt, [a]) + StreamEntry(b, pmt.streams[b]);
  }

  /** The stream loop over a section of two entries and a checksum. */
  lemma StreamsRead(s: D.State, body: seq<byte>, t: byte, p: u16, t': byte, p': u16)
    requires |body| >= 26
    requires body[12] == t && Get16(body[13..15]) % 0x2000 == p && Get16(body[15..17]) % 0x1000 == 0
    requires body[17] == t' && Get16(body[18..20]) % 0x2000 == p' && Get16(body[20..22]) % 0x1000 == 0
    requires (t == 0x0f && t' in {0x1b, 0x24}) || (t in {0x1b, 0x24} && t' == 0x0f)
    ensures D.Streams(s, body, 12, 26) == s.(videoPID := if t == 0x0f then p' else p, audioPID := if t == 0x0f then p else p')
  {
    var s1 := if t == 0x0f then s.(audioPID := p) else s.(videoPID := p);
    var s2 := if t == 0x0f then s1.(videoPID := p') else s1.(audioPID := p');
    assert D.Streams(s2, body, 22, 26) == s2;
    assert D.Streams(s1, body, 17, 26) == D.Streams(s2, body, 22, 26);
    assert D.Streams(s, body, 12, 26) == D.Streams(s1, body, 17, 26);
  }

  lemma EntryBytes(a: u16, x: Stream)
    requires Media(a)
    ensures
      var e := StreamEntry(a, x);
      && e[0] == TypeOf(x) && Get16([e[1], e[2]]) % 0x2000 == a && Get16([e[3], e[4]]) % 0x1000 == 0
  {}

  lemma PmtHeaderBytes(videoType: byte)
    ensures
      var h := PmtHeader(SegmentPmt(videoType));
      h[1] == 0xb0 && h[2] == 0x17 && h[10] == 0xf0 && h[11] == 0
  {}

  lemma FiveAt(front: seq<byte>, x: seq<byte>, rest: seq<byte>)
    requires |x| == 5
    ensures
      var b, k := front + x + rest, |front|;
      b[k] == x[0] && b[k + 1..k + 3] == [x[1], x[2]] && b[k + 3..k + 5] == [x[3], x[4]]
  {
    var b, k := front + x + rest, |front|;
    assert b[k + 1] == x[1] && b[k + 2] == x[2] && b[k + 3] == x[3] && b[k + 4] == x[4];
  }

  lemma PmtBody(h: seq<byte>, e: seq<byte>, e': seq<byte>, crc: seq<byte>, pad: seq<byte>)
    ensures
      var body := ([0] + (h + (e + e') + crc) + pad)[1..];
      body == h + e + (e' + (crc + pad)) && body == h + e + e' + (crc + pad)
  {
    assert ([0] + (h + (e + e') + crc) + pad)[1..] == h + (e + e') + crc + pad;
  }

  lemma HeadSlices(h: seq<byte>, rest: seq<byte>)
    requires |h| == 12
    ensures (h + rest)[1..3] == h[1..3] && (h + rest)[10..12] == h[10..12]
  {}

  /** Where the bytes of a table with two streams are, behind its pointer field. */
  lemma PmtBytes(h: seq<byte>, e: seq<byte>, e': seq<byte>, crc: seq<byte>, pad: seq<byte>)
    requires |h| == 12 && |e| == 5 && |e'| == 5 && |crc| == 4
    ensures
      var body := ([0] + (h + (e + e') + crc) + pad)[1..];
      && |body| >= 26
      && body[1..3] == h[1..3] && body[10..12] == h[10..12]
      && body[12] == e[0] && body[13..15] == [e[1], e[2]] && body[15..17] == [e[3], e[4]]
      && body[17] == e'[0] && body[18..20] == [e'[1], e'[2]] && body[20..22] == [e'[3], e'[4]]
  {
    PmtBody(h, e, e', crc, pad);
    FiveAt(h, e, e' + (crc + pad));
    FiveAt(h + e, e', crc + pad);
    HeadSlices(h, e + (e' + (crc + pad)));
    assert h + e + (e' + (crc + pad)) == h + (e + (e' + (crc + pad)));
  }

  lemma PmtRead(s: D.State, cc: byte, videoType: byte, order: seq<u16>)
    requires StreamOrder(order) && videoType in {0x1b, 0x24} && s.pmtPID == PMT_PID
    ensures
      var pkt := PmtPacket(cc, videoType, order);
      && Framed(pkt) && D.PidOf(pkt) == PMT_PID && pkt[3] % 0x10 == cc % 0x10
      && D.Step(s, pkt) == Some(s.(videoPID := VIDEO_PID, audioPID := AUDIO_PID))
  {
    hide Crc, D.PayloadOf, D.PidOf, SectionCut, StreamEntry, D.Streams, PmtHeader, PmtEntries, Put32;
    var pmt := SegmentPmt(videoType);
    var section := PmtSection(pmt, order);
    SectionRead(PMT_PID, cc, section);
    var pad := Repeat(0xff, 183 - |section|);
    var body := ([0] + section + pad)[1..];
    var a, b := order[0], order[1];
    var e, e' := StreamEntry(a, pmt.streams[a]), StreamEntry(b, pmt.streams[b]);
    TwoEntries(pmt, a, b);
    EntryBytes(a, pmt.streams[a]);
    EntryBytes(b, pmt.streams[b]);
    PmtHeaderBytes(videoType);
    var h := PmtHeader(pmt);
    PmtBytes(h, e, e', Put32(Crc(h + (e + e'))), pad);
    assert Get16(h[1..3]) == 0xb017 && Get16(h[10..12]) == 0xf000;
    StreamsRead(s, body, e[0], a, e'[0], b);
  }

  function Learn(s: D.State): D.State {
    s.(pmtPID := PMT_PID, videoPID := VIDEO_PID, audioPID := AUDIO_PID)
  }

  // ----- Segments -----

  /** What is written in one go: both tables, or one unit of one stream. */
  datatype Item =
    | Tables(videoType: byte, order: seq<u16>)
    | Unit(pid: u16, key: bool, streamID: byte, pts: u64, dts: u64, data: seq<byte>)

  function UnitBytes(it: Item): seq<byte>
    requires it.Unit?
  {
    Pes.Header(1, it.streamID, it.pts, it.dts, |it.data|) + it.data
  }

  predicate Proper(it: Item) {
    match it
    case Tables(videoType, order) => videoType in {0x1b, 0x24} && StreamOrder(order)
    case Unit(pid, _, _, _, _, _) => Media(pid)
  }

  predicate HasData(it: Item) {
    it.Unit? ==> |it.data| > 0
  }

  /** The item is a table, or a unit with data, of a length that survives. */
  predicate Survives(it: Item) {
    it.Unit? ==> !Pes.NoOptionalHeader(it.streamID) && HasData(it) && InDomain(it.key, |UnitBytes(it)|)
  }

  function ItemPackets(it: Item, cc: map<u16, byte>): seq<seq<byte>>
    requires Proper(it)
  {
    match it
    case Tables(videoType, order) => [PatPacket(CounterOf(cc, PAT_PID)), PmtPacket(CounterOf(cc, PMT_PID), videoType, order)]
    case Unit(pid, key, _, _, dts, _) => MuxRun(pid, CounterOf(cc, pid), true, key, dts, UnitBytes(it), 0).packets
  }

  function ItemCounters(it: Item, cc: map<u16, byte>): map<u16, byte>
    requires Proper(it)
  {
    match it
    case Tables(_, _) => Bump(Bump(cc, PAT_PID), PMT_PID)
    case Unit(pid, _, _, _, _, _) => cc[pid := (CounterOf(cc, pid) + |ItemPackets(it, cc)|) % 0x10]
  }

  /** The packets of a segment, whose counters go on from item to item. */
  function SegmentPackets(items: seq<Item>, cc: map<u16, byte>): seq<seq<byte>>
    requires forall it :: it in items ==> Proper(it)
  {
    if items == [] then [] else ItemPackets(items[0], cc) + SegmentPackets(items[1..], ItemCounters(items[0], cc))
  }

  /** The ideal demultiplexer on items. */
  function AcceptAll(s: D.State, items: seq<Item>): D.State
    decreases |items|
  {
    if items == [] then s
    else
      var it := items[0];
      AcceptAll(if it.Tables? then Learn(s) else Accept(s, it.pid, it.pts, it.dts, it.data), items[1..])
  }

  lemma StepTwo(s: D.State, a: seq<byte>, b: seq<byte>, s1: D.State, s2: D.State)
    requires Framed(a) && Framed(b) && D.Step(s, a) == Some(s1) && D.Step(s1, b) == Some(s2)
    ensures AllFramed([a, b]) && StepAll(s, [a, b]) == Some(s2)
  {
    hide D.Step;
    var ps: seq<seq<byte>>, last: seq<seq<byte>> := [a, b], [b];
    assert ps[1..] == last && |last[1..]| == 0;
    assert StepAll(s1, last) == StepAll(s2, last[1..]);
  }

  lemma ItemFed(s: D.State, it: Item, cc: map<u16, byte>)
    requires Proper(it) && Survives(it) && s.audio.dts == 0 && (it.Unit? ==> Learned(s))
    ensures AllFramed(ItemPackets(it, cc))
    ensures StepAll(s, ItemPackets(it, cc)) == Some(if it.Tables? then Learn(s) else Accept(s, it.pid, it.pts, it.dts, it.data))
  {
    hide MuxRun, PatPacket, PmtPacket, D.Step, Pes.Header;
    match it
    case Tables(videoType, order) =>
      var a, b := PatPacket(CounterOf(cc, PAT_PID)), PmtPacket(CounterOf(cc, PMT_PID), videoType, order);
      PatRead(s, CounterOf(cc, PAT_PID));
      PmtRead(s.(pmtPID := PMT_PID), CounterOf(cc, PMT_PID), videoType, order);
      var s1 := s.(pmtPID := PMT_PID);
      StepTwo(s, a, b, s1, Learn(s));
    case Unit(pid, key, streamID, pts, dts, data) =>
      UnitFed(s, pid, CounterOf(cc, pid), key, streamID, pts, dts, data);
  }

  lemma {:induction false} SegmentFed(s: D.State, items: seq<Item>, cc: map<u16, byte>)
    requires forall it :: it in items ==> Proper(it) && Survives(it)
    requires s.audio.dts == 0 && (Learned(s) || items == [] || items[0].Tables?)
    ensures AllFramed(SegmentPackets(items, cc))
    ensures StepAll(s, SegmentPackets(items, cc)) == Some(AcceptAll(s, items))
    decreases |items|
  {
    hide ItemPackets, ItemCounters, Survives, Proper;
    if items == [] {
    } else {
      var it := items[0];
      ItemFed(s, it, cc);
      var next := if it.Tables? then Learn(s) else Accept(s, it.pid, it.pts, it.dts, it.data);
      SegmentFed(next, items[1..], ItemCounters(it, cc));
      StepAllSplit(s, ItemPackets(it, cc), SegmentPackets(items[1..], ItemCounters(it, cc)));
    }
  }

  // ----- What comes out, stream by stream -----

  /** The units of one stream, with the times that 33 bits keep; audio keeps no decoding time. */
  function Units(items: seq<Item>, pid: u16): seq<D.Partial> {
    if items == [] then []
    else
      (if items[0].Unit? && items[0].pid == pid
       then [D.Partial(items[0].data, items[0].pts % 0x2_0000_0000, if pid == VIDEO_PID then items[0].dts % 0x2_0000_0000 else 0)]
       else [])
      + Units(items[1..], pid)
  }

  function AccessUnits(ps: seq<D.Partial>): (r: seq<D.AccessUnit>)
    ensures |r| == |ps|
    ensures forall i :: 0 <= i < |ps| ==> r[i] == D.AccessUnit(ps[i].pts, ps[i].dts, D.KeyFrom(ps[i].buf, 0), ps[i].buf)
  {
    seq(|ps|, i requires 0 <= i < |ps| => D.AccessUnit(ps[i].pts, ps[i].dts, D.KeyFrom(ps[i].buf, 0), ps[i].buf))
  }

  function AudioFrames(ps: seq<D.Partial>): (r: seq<D.AudioFrame>)
    ensures |r| == |ps| && forall i :: 0 <= i < |ps| ==> r[i] == D.AudioFrame(ps[i].pts, ps[i].buf)
  {
    seq(|ps|, i requires 0 <= i < |ps| => D.AudioFrame(ps[i].pts, ps[i].buf))
  }

  function AllButLast<T>(s: seq<T>): seq<T> {
    if s == [] then [] else s[..|s| - 1]
  }

  function Pending(p: D.Partial): seq<D.Partial> {
    if |p.buf| > 0 then [p] else []
  }

  function LastOr(all: seq<D.Partial>, p: D.Partial): D.Partial {
    if all == [] then p else all[|all| - 1]
  }

  lemma PushOne(p: D.Partial, u: D.Partial, rest: seq<D.Partial>)
    ensures AllButLast(Pending(p) + ([u] + rest)) == Pending(p) + AllButLast([u] + rest)
    ensures LastOr(Pending(p) + ([u] + rest), p) == LastOr([u] + rest, u)
  {}

  lemma {:induction false} VideoOut(s: D.State, items: seq<Item>)
    requires forall it :: it in items ==> Proper(it) && HasData(it)
    ensures
      var all := Pending(s.video) + Units(items, VIDEO_PID);
      var out := AcceptAll(s, items);
      && out.units == s.units + AccessUnits(AllButLast(all))
      && out.video == LastOr(all, s.video)
    decreases |items|
  {
    hide AccessUnits, AllButLast, LastOr, D.ToAccessUnit;
    var pending := Pending(s.video);
    if items == [] {
      VideoNone(s.units, s.video);
    } else {
      var it, rest := items[0], Units(items[1..], VIDEO_PID);
      var next := if it.Tables? then Learn(s) else Accept(s, it.pid, it.pts, it.dts, it.data);
      VideoOut(next, items[1..]);
      if it.Unit? && it.pid == VIDEO_PID {
        assert |next.video.buf| > 0 by {
          assert it in items;
        }
        VideoNext(s.units, s.video, next.video, rest);
        assert Units(items, VIDEO_PID) == [next.video] + rest;
      } else {
        assert Units(items, VIDEO_PID) == rest;
      }
    }
  }

  lemma VideoNone(done: seq<D.AccessUnit>, p: D.Partial)
    ensures done + AccessUnits(AllButLast(Pending(p) + [])) == done && LastOr(Pending(p) + [], p) == p
  {
    assert Pending(p) + [] == Pending(p);
    assert AllButLast(Pending(p)) == [];
  }

  /** One more unit pushes out the one that was pending. */
  lemma LastPush(p: D.Partial, u: D.Partial, rest: seq<D.Partial>)
    requires |u.buf| > 0
    ensures Pending(u) + rest == [u] + rest
    ensures LastOr(Pending(u) + rest, u) == LastOr(Pending(p) + ([u] + rest), p)
  {}

  lemma UnitsFirst(p: D.Partial, later: seq<D.Partial>)
    ensures AccessUnits([p] + later) == [D.ToAccessUnit(p)] + AccessUnits(later)
  {
    hide D.KeyFrom;
    var all, l, r := [p] + later, AccessUnits([p] + later), [D.ToAccessUnit(p)] + AccessUnits(later);
    forall i | 0 <= i < |l|
      ensures l[i] == r[i]
    {
      assert l[i] == D.ToAccessUnit(all[i]);
    }
  }

  lemma FramesFirst(p: D.Partial, later: seq<D.Partial>)
    ensures AudioFrames([p] + later) == [D.AudioFrame(p.pts, p.buf)] + AudioFrames(later)
  {
    var all, l, r := [p] + later, AudioFrames([p] + later), [D.AudioFrame(p.pts, p.buf)] + AudioFrames(later);
    forall i | 0 <= i < |l|
      ensures l[i] == r[i]
    {
      assert l[i] == D.AudioFrame(all[i].pts, all[i].buf);
    }
  }

  lemma UnitsPush(p: D.Partial, later: seq<D.Partial>)
    ensures AccessUnits(Pending(p) + later) == (if |p.buf| > 0 then [D.ToAccessUnit(p)] else []) + AccessUnits(later)
    ensures AudioFrames(Pending(p) + later) == (if |p.buf| > 0 then [D.AudioFrame(p.pts, p.buf)] else []) + AudioFrames(later)
  {
    UnitsFirst(p, later);
    FramesFirst(p, later);
    hide D.ToAccessUnit, AccessUnits, AudioFrames;
    assert [] + later == later && [] + AccessUnits(later) == AccessUnits(later) && [] + AudioFrames(later) == AudioFrames(later);
  }

  lemma VideoNext(done: seq<D.AccessUnit>, p: D.Partial, u: D.Partial, rest: seq<D.Partial>)
    requires |u.buf| > 0
    ensures
      var one := if |p.buf| > 0 then [D.ToAccessUnit(p)] else [];
      && (done + one) + AccessUnits(AllButLast(Pending(u) + rest)) == done + AccessUnits(AllButLast(Pending(p) + ([u] + rest)))
      && LastOr(Pending(u) + rest, u) == LastOr(Pending(p) + ([u] + rest), p)
  {
    hide D.ToAccessUnit, AccessUnits, AllButLast, Pending, LastOr;
    PushOne(p, u, rest);
    LastPush(p, u, rest);
    UnitsPush(p, AllButLast([u] + rest));
    Regroup(done, if |p.buf| > 0 then [D.ToAccessUnit(p)] else [], AccessUnits(AllButLast([u] + rest)));
  }

  lemma {:induction false} AudioOut(s: D.State, items: seq<Item>)
    requires forall it :: it in items ==> Proper(it) && HasData(it)
    ensures
      var all := Pending(s.audio) + Units(items, AUDIO_PID);
      var out := AcceptAll(s, items);
      && out.frames == s.frames + AudioFrames(AllButLast(all))
      && out.audio == LastOr(all, s.audio)
    decreases |items|
  {
    hide AudioFrames, AllButLast, LastOr, D.ToAccessUnit;
    var pending := Pending(s.audio);
    if items == [] {
      AudioNone(s.frames, s.audio);
    } else {
      var it, rest := items[0], Units(items[1..], AUDIO_PID);
      var next := if it.Tables? then Learn(s) else Accept(s, it.pid, it.pts, it.dts, it.data);
      AudioOut(next, items[1..]);
      if it.Unit? && it.pid == AUDIO_PID {
        assert |next.audio.buf| > 0 by {
          assert it in items;
        }
        AudioNext(s.frames, s.audio, next.audio, rest);
        assert Units(items, AUDIO_PID) == [next.audio] + rest;
      } else {
        assert Units(items, AUDIO_PID) == rest;
      }
    }
  }

  lemma AudioNone(done: seq<D.AudioFrame>, p: D.Partial)
    ensures done + AudioFrames(AllButLast(Pending(p) + [])) == done && LastOr(Pending(p) + [], p) == p
  {
    assert Pending(p) + [] == Pending(p);
    assert AllButLast(Pending(p)) == [];
  }

  /** One more unit pushes out the one that was pending. */
  lemma AudioNext(done: seq<D.AudioFrame>, p: D.Partial, u: D.Partial, rest: seq<D.Partial>)
    requires |u.buf| > 0
    ensures
      var one := if |p.buf| > 0 then [D.AudioFrame(p.pts, p.buf)] else [];
      && (done + one) + AudioFrames(AllButLast(Pending(u) + rest)) == done + AudioFrames(AllButLast(Pending(p) + ([u] + rest)))
      && LastOr(Pending(u) + rest, u) == LastOr(Pending(p) + ([u] + rest), p)
  {
    hide AudioFrames, AllButLast, Pending, LastOr;
    PushOne(p, u, rest);
    LastPush(p, u, rest);
    UnitsPush(p, AllButLast([u] + rest));
    Regroup(done, if |p.buf| > 0 then [D.AudioFrame(p.pts, p.buf)] else [], AudioFrames(AllButLast([u] + rest)));
  }

  /**
    A fresh demultiplexer, fed the bytes of a segment as it is written, tables first, learns the PIDs and
    delivers every unit of each stream but the last, in order, wherever the tables come again; the last
    unit of each stream is whole in its buffer.
   */
  lemma WrittenRoundTrip(items: seq<Item>, cc: map<u16, byte>)
    requires items != [] && items[0].Tables?
    requires forall it :: it in items ==> Proper(it) && Survives(it)
    ensures
      var video, audio := Units(items, VIDEO_PID), Units(items, AUDIO_PID);
      var r := D.FeedAll(D.INITIAL, Flatten(SegmentPackets(items, cc)));
      && r.Some?
      && Learned(r.value)
      && r.value.units == AccessUnits(AllButLast(video)) && r.value.frames == AudioFrames(AllButLast(audio))
      && r.value.video == LastOr(video, D.INITIAL.video) && r.value.audio == LastOr(audio, D.INITIAL.audio)
  {
    hide SegmentPackets, D.FeedAll, Units, AcceptAll;
    assert forall it :: it in items ==> HasData(it);
    hide Survives;
    var video, audio := Units(items, VIDEO_PID), Units(items, AUDIO_PID);
    SegmentFed(D.INITIAL, items, cc);
    FeedFlat(D.INITIAL, SegmentPackets(items, cc));
    VideoOut(D.INITIAL, items);
    AudioOut(D.INITIAL, items);
    assert [] + video == video && [] + audio == audio;
    LearnedAll(D.INITIAL, items);
  }

  lemma {:induction false} LearnedAll(s: D.State, items: seq<Item>)
    requires Learned(s) || (items != [] && items[0].Tables?)
    ensures Learned(AcceptAll(s, items))
    decreases |items|
  {
    if items == [] {
    } else {
      var it := items[0];
      LearnedAll(if it.Tables? then Learn(s) else Accept(s, it.pid, it.pts, it.dts, it.data), items[1..]);
    }
  }

  // ----- Any interleaving of packets -----

  /** The packets of one PID. */
  function Only(ps: seq<seq<byte>>, pid: u16): (r: seq<seq<byte>>)
    requires AllFramed(ps)
    ensures AllFramed(r)
  {
    if ps == [] then [] else (if D.PidOf(ps[0]) == pid then [ps[0]] else []) + Only(ps[1..], pid)
  }

  /** The PIDs that tables teach; a segment's are fixed, other senders choose their own. */
  datatype Pids = Pids(pmt: u16, video: u16, audio: u16)

  const SEGMENT_PIDS := Pids(PMT_PID, VIDEO_PID, AUDIO_PID)

  predicate Distinct(ids: Pids) {
    ids.pmt != 0 && ids.video !in {0, ids.pmt} && ids.audio !in {0, ids.pmt, ids.video}
  }

  predicate Knows(s: D.State, ids: Pids) {
    s.pmtPID == ids.pmt && s.videoPID == ids.video && s.audioPID == ids.audio
  }

  /** A packet that tells a demultiplexer nothing new once it has learned the PIDs. */
  ghost predicate Restates(pkt: seq<byte>, ids: Pids)
    requires Framed(pkt)
  {
    forall s: D.State | Knows(s, ids) :: D.Step(s, pkt) == Some(s)
  }

  /** Packets of either stream, with any others between them that change nothing. */
  ghost predicate Mixed(ps: seq<seq<byte>>, ids: Pids) {
    && AllFramed(ps)
    && forall i :: 0 <= i < |ps| ==> D.PidOf(ps[i]) in {ids.video, ids.audio} || Restates(ps[i], ids)
  }

  /** The tables, read again, are such packets, whatever their counters and the order of the streams. */
  lemma TablesRestate(cc: byte, videoType: byte, order: seq<u16>)
    requires StreamOrder(order) && videoType in {0x1b, 0x24}
    ensures Framed(PatPacket(cc)) && Restates(PatPacket(cc), SEGMENT_PIDS)
    ensures Framed(PmtPacket(cc, videoType, order)) && Restates(PmtPacket(cc, videoType, order), SEGMENT_PIDS)
  {
    hide PatPacket, PmtPacket, D.Step;
    PatRead(D.INITIAL, cc);
    PmtRead(D.INITIAL.(pmtPID := PMT_PID), cc, videoType, order);
    forall s: D.State | Knows(s, SEGMENT_PIDS)
      ensures D.Step(s, PatPacket(cc)) == Some(s) && D.Step(s, PmtPacket(cc, videoType, order)) == Some(s)
    {
      PatRead(s, cc);
      PmtRead(s, cc, videoType, order);
    }
  }

  predicate SameVideo(s: D.State, t: D.State) {
    s.video == t.video && s.units == t.units
  }

  predicate SameAudio(s: D.State, t: D.State) {
    s.audio == t.audio && s.frames == t.frames
  }

  /** A video packet does to the video part what it does to any other state with that part, and nothing else. */
  lemma VideoStep(ids: Pids, s: D.State, v: D.State, pkt: seq<byte>)
    requires Distinct(ids) && Framed(pkt) && D.PidOf(pkt) == ids.video && Knows(s, ids) && Knows(v, ids) && SameVideo(s, v)
    ensures
      var s', v' := D.Step(s, pkt), D.Step(v, pkt);
      && s'.Some? && v'.Some? && Knows(s'.value, ids) && Knows(v'.value, ids)
      && SameVideo(s'.value, v'.value) && SameAudio(s'.value, s)
  {
    hide D.PidOf, D.StartOf, D.PayloadOf, D.ParsePESHeader;
  }

  lemma AudioStep(ids: Pids, s: D.State, a: D.State, pkt: seq<byte>)
    requires Distinct(ids) && Framed(pkt) && D.PidOf(pkt) == ids.audio && Knows(s, ids) && Knows(a, ids) && SameAudio(s, a)
    ensures
      var s', a' := D.Step(s, pkt), D.Step(a, pkt);
      && s'.Some? && a'.Some? && Knows(s'.value, ids) && Knows(a'.value, ids)
      && SameAudio(s'.value, a'.value) && SameVideo(s'.value, s)
  {
    hide D.PidOf, D.StartOf, D.PayloadOf, D.ParsePESHeader;
  }

  /**
    However packets of the two streams and of others are mixed, each stream comes out as if its packets
    were fed alone, to any demultiplexer whose state of that stream is the same, whatever the PIDs.
   */
  lemma {:induction false} Projects(ids: Pids, s: D.State, v: D.State, a: D.State, ps: seq<seq<byte>>)
    requires Distinct(ids) && Mixed(ps, ids)
    requires Knows(s, ids) && Knows(v, ids) && Knows(a, ids) && SameVideo(s, v) && SameAudio(s, a)
    ensures
      var s', v', a' := StepAll(s, ps), StepAll(v, Only(ps, ids.video)), StepAll(a, Only(ps, ids.audio));
      && s'.Some? && v'.Some? && a'.Some? && Knows(s'.value, ids)
      && SameVideo(s'.value, v'.value) && SameAudio(s'.value, a'.value)
    decreases |ps|
  {
    hide D.Step, D.PidOf, Knows, SameVideo, SameAudio;
    if ps == [] {
    } else {
      var pkt, rest := ps[0], ps[1..];
      assert Framed(pkt) && Mixed(rest, ids);
      var video, audio := Only(rest, ids.video), Only(rest, ids.audio);
      assert [] + video == video && [] + audio == audio;
      assert ([pkt] + video)[1..] == video && ([pkt] + audio)[1..] == audio;
      if D.PidOf(pkt) == ids.video {
        VideoStep(ids, s, v, pkt);
        AudioKept(D.Step(s, pkt).value, s, a);
        Projects(ids, D.Step(s, pkt).value, D.Step(v, pkt).value, a, rest);
      } else if D.PidOf(pkt) == ids.audio {
        AudioStep(ids, s, a, pkt);
        VideoKept(D.Step(s, pkt).value, s, v);
        Projects(ids, D.Step(s, pkt).value, v, D.Step(a, pkt).value, rest);
      } else {
        assert D.Step(s, pkt) == Some(s);
        Projects(ids, s, v, a, rest);
      }
    }
  }

  lemma VideoKept(s: D.State, t: D.State, u: D.State)
    requires SameVideo(s, t) && SameVideo(t, u)
    ensures SameVideo(s, u)
  {}

  lemma AudioKept(s: D.State, t: D.State, u: D.State)
    requires SameAudio(s, t) && SameAudio(t, u)
    ensures SameAudio(s, u)
  {}

  predicate OneStream(items: seq<Item>, pid: u16)
    requires Media(pid)
  {
    forall it :: it in items ==> it.Unit? && it.pid == pid && Proper(it) && Survives(it)
  }

  /**
    A fresh demultiplexer, fed both tables and then the packets of the two streams' units in any
    interleaving, a packet of one stream between two of a unit of the other included, with tables and
    packets of other PIDs anywhere: it learns the PIDs and delivers every unit of each stream but the
    last, in order; the last unit of each stream is whole in its buffer.
   */
  lemma SegmentRoundTrip(ccPat: byte, ccPmt: byte, videoType: byte, order: seq<u16>, ps: seq<seq<byte>>,
                         video: seq<Item>, audio: seq<Item>, ccVideo: map<u16, byte>, ccAudio: map<u16, byte>)
    requires StreamOrder(order) && videoType in {0x1b, 0x24} && Mixed(ps, SEGMENT_PIDS)
    requires OneStream(video, VIDEO_PID) && Only(ps, VIDEO_PID) == SegmentPackets(video, ccVideo)
    requires OneStream(audio, AUDIO_PID) && Only(ps, AUDIO_PID) == SegmentPackets(audio, ccAudio)
    ensures
      var units, frames := Units(video, VIDEO_PID), Units(audio, AUDIO_PID);
      var r := D.FeedAll(D.INITIAL, Flatten([PatPacket(ccPat), PmtPacket(ccPmt, videoType, order)] + ps));
      && r.Some?
      && Learned(r.value)
      && r.value.units == AccessUnits(AllButLast(units)) && r.value.frames == AudioFrames(AllButLast(frames))
      && r.value.video == LastOr(units, D.INITIAL.video) && r.value.audio == LastOr(frames, D.INITIAL.audio)
  {
    hide SegmentPackets, D.FeedAll, D.Step, Units, AcceptAll, PatPacket, PmtPacket, Mixed, Only;
    var start := Learn(D.INITIAL);
    var tables := [PatPacket(ccPat), PmtPacket(ccPmt, videoType, order)];
    TablesRead(ccPat, ccPmt, videoType, order);
    MixedFramed(ps);
    StepAllSplit(D.INITIAL, tables, ps);
    FeedFlat(D.INITIAL, tables + ps);
    Projects(SEGMENT_PIDS, start, start, start, ps);
    StreamOut(video, VIDEO_PID, ccVideo);
    StreamOut(audio, AUDIO_PID, ccAudio);
  }

  lemma MixedFramed(ps: seq<seq<byte>>)
    requires Mixed(ps, SEGMENT_PIDS)
    ensures AllFramed(ps)
  {}

  lemma TablesRead(ccPat: byte, ccPmt: byte, videoType: byte, order: seq<u16>)
    requires StreamOrder(order) && videoType in {0x1b, 0x24}
    ensures
      var tables := [PatPacket(ccPat), PmtPacket(ccPmt, videoType, order)];
      AllFramed(tables) && StepAll(D.INITIAL, tables) == Some(Learn(D.INITIAL))
  {
    hide PatPacket, PmtPacket, D.Step;
    var s1 := D.INITIAL.(pmtPID := PMT_PID);
    PatRead(D.INITIAL, ccPat);
    PmtRead(s1, ccPmt, videoType, order);
    StepTwo(D.INITIAL, PatPacket(ccPat), PmtPacket(ccPmt, videoType, order), s1, Learn(D.INITIAL));
  }

  /** One stream's packets alone. */
  lemma StreamOut(items: seq<Item>, pid: u16, cc: map<u16, byte>)
    requires Media(pid) && OneStream(items, pid)
    ensures AllFramed(SegmentPackets(items, cc))
    ensures
      var all := Units(items, pid);
      var r := StepAll(Learn(D.INITIAL), SegmentPackets(items, cc));
      && r.Some?
      && (pid == VIDEO_PID ==> r.value.units == AccessUnits(AllButLast(all)) && r.value.video == LastOr(all, D.INITIAL.video))
      && (pid == AUDIO_PID ==> r.value.frames == AudioFrames(AllButLast(all)) && r.value.audio == LastOr(all, D.INITIAL.audio))
  {
    hide SegmentPackets, Units, AcceptAll;
    assert forall it :: it in items ==> HasData(it);
    hide Survives;
    var start := Learn(D.INITIAL);
    SegmentFed(start, items, cc);
    VideoOut(start, items);
    AudioOut(start, items);
    assert [] + Units(items, pid) == Units(items, pid);
  }

  /** The units of one stream. */
  function OfStream(items: seq<Item>, pid: u16): seq<Item> {
    if items == [] then [] else (if items[0].Unit? && items[0].pid == pid then [items[0]] else []) + OfStream(items[1..], pid)
  }

  lemma {:induction false} OnlySplit(a: seq<seq<byte>>, b: seq<seq<byte>>, pid: u16)
    requires AllFramed(a) && AllFramed(b)
    ensures AllFramed(a + b) && Only(a + b, pid) == Only(a, pid) + Only(b, pid)
    decreases |a|
  {
    hide D.PidOf;
    FramedBoth(a, b);
    if a == [] {
      assert a + b == b && [] + Only(b, pid) == Only(b, pid);
    } else {
      assert (a + b)[1..] == a[1..] + b;
      OnlySplit(a[1..], b, pid);
      assert Framed(a[0]);
      Regroup(if D.PidOf(a[0]) == pid then [a[0]] else [], Only(a[1..], pid), Only(b, pid));
    }
  }

  lemma {:induction false} OnlyAlike(ps: seq<seq<byte>>, pid: u16, q: u16)
    requires AllFramed(ps) && forall i :: 0 <= i < |ps| ==> D.PidOf(ps[i]) == q
    ensures Only(ps, pid) == if q == pid then ps else []
    decreases |ps|
  {
    hide D.PidOf;
    if ps == [] {
    } else {
      OnlyAlike(ps[1..], pid, q);
    }
  }

  lemma MixedBoth(a: seq<seq<byte>>, b: seq<seq<byte>>)
    requires Mixed(a, SEGMENT_PIDS) && Mixed(b, SEGMENT_PIDS)
    ensures Mixed(a + b, SEGMENT_PIDS)
  {
    hide D.PidOf, Restates;
  }

  lemma TablesMix(ccPat: byte, ccPmt: byte, videoType: byte, order: seq<u16>, pid: u16)
    requires StreamOrder(order) && videoType in {0x1b, 0x24} && Media(pid)
    ensures
      var ps := [PatPacket(ccPat), PmtPacket(ccPmt, videoType, order)];
      Mixed(ps, SEGMENT_PIDS) && Only(ps, pid) == []
  {
    hide PatPacket, PmtPacket, D.PidOf, D.Step, Restates;
    var a, b := PatPacket(ccPat), PmtPacket(ccPmt, videoType, order);
    PatRead(D.INITIAL, ccPat);
    PmtRead(D.INITIAL.(pmtPID := PMT_PID), ccPmt, videoType, order);
    TablesRestate(ccPat, videoType, order);
    TablesRestate(ccPmt, videoType, order);
    OnlyAlike([a], pid, PAT_PID);
    OnlyAlike([b], pid, PMT_PID);
    OnlySplit([a], [b], pid);
    assert [a] + [b] == [a, b];
  }

  lemma RunMixes(ps: seq<seq<byte>>, q: u16, cc: byte, pid: u16)
    requires Media(q) && Numbered(ps, q, cc, true)
    ensures Mixed(ps, SEGMENT_PIDS) && Only(ps, pid) == if q == pid then ps else []
  {
    hide D.PidOf, D.StartOf, Restates;
    OnlyAlike(ps, pid, q);
  }

  /** An item's packets, of its stream if it is a unit; they depend on nothing but its PID's counter. */
  lemma ItemMixes(it: Item, cc: map<u16, byte>, cc': map<u16, byte>, pid: u16)
    requires Proper(it) && Media(pid) && CounterOf(cc, pid) == CounterOf(cc', pid)
    ensures Mixed(ItemPackets(it, cc), SEGMENT_PIDS)
    ensures
      var mine := it.Unit? && it.pid == pid;
      && Only(ItemPackets(it, cc), pid) == (if mine then ItemPackets(it, cc') else [])
      && CounterOf(ItemCounters(it, cc), pid) == CounterOf(if mine then ItemCounters(it, cc') else cc', pid)
  {
    hide MuxRun, PatPacket, PmtPacket, Pes.Header, Mixed, Only, Numbered, Framed;
    match it
    case Tables(videoType, order) =>
      TablesMix(CounterOf(cc, PAT_PID), CounterOf(cc, PMT_PID), videoType, order, pid);
    case Unit(q, key, streamID, pts, dts, data) =>
      RunNumbered(q, CounterOf(cc, q), true, key, dts, UnitBytes(it), 0);
      RunMixes(ItemPackets(it, cc), q, CounterOf(cc, q), pid);
  }

  /** What is written for any items is such a mix, and holds of each stream just the packets of its units. */
  lemma {:induction false} WrittenMixes(items: seq<Item>, cc: map<u16, byte>, cc': map<u16, byte>, pid: u16)
    requires (forall it :: it in items ==> Proper(it)) && Media(pid) && CounterOf(cc, pid) == CounterOf(cc', pid)
    ensures Mixed(SegmentPackets(items, cc), SEGMENT_PIDS)
    ensures forall it :: it in OfStream(items, pid) ==> Proper(it)
    ensures Only(SegmentPackets(items, cc), pid) == SegmentPackets(OfStream(items, pid), cc')
    decreases |items|
  {
    hide ItemPackets, ItemCounters, Mixed, Proper, CounterOf;
    if items == [] {
      assert Mixed([], SEGMENT_PIDS) by { NoneMixed(); }
    } else {
      var it, rest := items[0], OfStream(items[1..], pid);
      var mine := it.Unit? && it.pid == pid;
      ItemMixes(it, cc, cc', pid);
      WrittenMixes(items[1..], ItemCounters(it, cc), if mine then ItemCounters(it, cc') else cc', pid);
      MixedBoth(ItemPackets(it, cc), SegmentPackets(items[1..], ItemCounters(it, cc)));
      MixedFramed(ItemPackets(it, cc));
      MixedFramed(SegmentPackets(items[1..], ItemCounters(it, cc)));
      OnlySplit(ItemPackets(it, cc), SegmentPackets(items[1..], ItemCounters(it, cc)), pid);
      assert ([it] + rest)[1..] == rest && [] + rest == rest;
    }
  }

  lemma NoneMixed()
    ensures Mixed([], SEGMENT_PIDS)
  {}

  // ----- Continuity -----

  /** How many packets of the PID there are. */
  function Seen(ps: seq<seq<byte>>, pid: u16): nat
    requires AllFramed(ps)
  {
    if ps == [] then 0
    else Seen(ps[..|ps| - 1], pid) + if D.PidOf(ps[|ps| - 1]) == pid then 1 else 0
  }

  /** Packet j has the counter its PID is due. */
  predicate CountedAt(ps: seq<seq<byte>>, cc: map<u16, byte>, j: nat)
    requires AllFramed(ps) && j < |ps|
  {
    var pid := D.PidOf(ps[j]);
    ps[j][3] % 0x10 == (CounterOf(cc, pid) + Seen(ps[..j], pid)) % 0x10
  }

  /** Every packet carries the counter of its PID, advanced by the packets of that PID before it. */
  predicate Counted(ps: seq<seq<byte>>, cc: map<u16, byte>) {
    && AllFramed(ps)
    && forall j :: 0 <= j < |ps| ==> CountedAt(ps, cc, j)
  }

  /** The counters after the packets. */
  predicate Advanced(cc: map<u16, byte>, ps: seq<seq<byte>>, cc': map<u16, byte>)
    requires AllFramed(ps)
  {
    forall pid: u16 {:trigger CounterOf(cc', pid)} :: CounterOf(cc', pid) % 0x10 == (CounterOf(cc, pid) + Seen(ps, pid)) % 0x10
  }

  lemma {:induction false} SeenSplit(a: seq<seq<byte>>, b: seq<seq<byte>>, pid: u16)
    requires AllFramed(a) && AllFramed(b)
    ensures AllFramed(a + b) && Seen(a + b, pid) == Seen(a, pid) + Seen(b, pid)
    decreases |b|
  {
    hide D.PidOf;
    if b == [] {
      assert a + b == a;
    } else {
      assert (a + b)[..|a + b| - 1] == a + b[..|b| - 1];
      SeenSplit(a, b[..|b| - 1], pid);
    }
  }

  lemma FramedBoth(a: seq<seq<byte>>, b: seq<seq<byte>>)
    requires AllFramed(a) && AllFramed(b)
    ensures AllFramed(a + b)
  {}

  lemma SeenBehind(a: seq<seq<byte>>, b: seq<seq<byte>>, k: nat, pid: u16)
    requires AllFramed(a) && AllFramed(b) && k <= |b|
    ensures AllFramed((a + b)[..|a| + k]) && AllFramed(b[..k])
    ensures Seen((a + b)[..|a| + k], pid) == Seen(a, pid) + Seen(b[..k], pid)
  {
    hide Seen;
    SeenSplit(a, b[..k], pid);
    assert (a + b)[..|a| + k] == a + b[..k];
  }

  lemma CountedBehind(a: seq<seq<byte>>, b: seq<seq<byte>>, cc: map<u16, byte>, cc': map<u16, byte>, k: nat)
    requires Counted(a, cc) && Advanced(cc, a, cc') && Counted(b, cc') && k < |b|
    requires AllFramed(a + b)
    ensures CountedAt(a + b, cc, |a| + k)
  {
    assert Framed(b[k]) && CountedAt(b, cc', k);
    var pid := D.PidOf(b[k]);
    SeenBehind(a, b, k, pid);
    assert CounterOf(cc', pid) % 0x10 == (CounterOf(cc, pid) + Seen(a, pid)) % 0x10;
    hide D.PidOf, CounterOf, Seen, AllFramed, Counted, Advanced;
    assert (a + b)[|a| + k] == b[k];
    ModSum(CounterOf(cc, pid), Seen(a, pid), CounterOf(cc', pid), Seen(b[..k], pid));
  }

  lemma CountedSplit(a: seq<seq<byte>>, b: seq<seq<byte>>, cc: map<u16, byte>, cc': map<u16, byte>)
    requires Counted(a, cc) && Advanced(cc, a, cc') && Counted(b, cc')
    ensures Counted(a + b, cc)
  {
    FramedBoth(a, b);
    hide D.PidOf, CounterOf, Seen, Advanced;
    forall j | 0 <= j < |a + b|
      ensures CountedAt(a + b, cc, j)
    {
      if j < |a| {
        assert CountedAt(a, cc, j);
        assert (a + b)[..j] == a[..j] && (a + b)[j] == a[j];
      } else {
        CountedBehind(a, b, cc, cc', j - |a|);
      }
    }
  }

  lemma ModSum(x: int, m: int, y: int, n: int)
    requires y % 0x10 == (x + m) % 0x10
    ensures (y + n) % 0x10 == (x + (m + n)) % 0x10
  {}

  lemma {:induction false} NumberedSeen(ps: seq<seq<byte>>, pid: u16, cc: byte, start: bool, q: u16)
    requires Numbered(ps, pid, cc, start)
    ensures Seen(ps, q) == if q == pid then |ps| else 0
    decreases |ps|
  {
    hide D.PidOf, D.StartOf;
    if ps == [] {
    } else {
      NumberedSeen(ps[..|ps| - 1], pid, cc, start, q);
    }
  }

  lemma NumberedCounted(ps: seq<seq<byte>>, pid: u16, start: bool, cc: map<u16, byte>)
    requires Numbered(ps, pid, CounterOf(cc, pid), start)
    ensures Counted(ps, cc)
    ensures Advanced(cc, ps, cc[pid := (CounterOf(cc, pid) + |ps|) % 0x10])
  {
    hide D.PidOf, D.StartOf;
    forall j | 0 <= j < |ps|
      ensures AllFramed(ps[..j]) && Seen(ps[..j], pid) == j
    {
      NumberedSeen(ps[..j], pid, CounterOf(cc, pid), start, pid);
    }
    var cc' := cc[pid := (CounterOf(cc, pid) + |ps|) % 0x10];
    forall q: u16
      ensures CounterOf(cc', q) % 0x10 == (CounterOf(cc, q) + Seen(ps, q)) % 0x10
    {
      NumberedSeen(ps, pid, CounterOf(cc, pid), start, q);
    }
  }

  lemma OneNumbered(pkt: seq<byte>, pid: u16, cc: byte)
    requires Framed(pkt) && D.PidOf(pkt) == pid && pkt[3] % 0x10 == cc % 0x10
    ensures Numbered([pkt], pid, cc, D.StartOf(pkt))
  {}

  lemma ItemCounted(it: Item, cc: map<u16, byte>)
    requires Proper(it)
    ensures Counted(ItemPackets(it, cc), cc) && Advanced(cc, ItemPackets(it, cc), ItemCounters(it, cc))
  {
    hide MuxRun, PatPacket, PmtPacket, Pes.Header, D.PidOf, D.StartOf, CounterOf;
    match it
    case Tables(videoType, order) =>
      var a, b := PatPacket(CounterOf(cc, PAT_PID)), PmtPacket(CounterOf(cc, PMT_PID), videoType, order);
      PatRead(D.INITIAL, CounterOf(cc, PAT_PID));
      PmtRead(D.INITIAL.(pmtPID := PMT_PID), CounterOf(cc, PMT_PID), videoType, order);
      OneNumbered(a, PAT_PID, CounterOf(cc, PAT_PID));
      OneNumbered(b, PMT_PID, CounterOf(cc, PMT_PID));
      var cc1 := Bump(cc, PAT_PID);
      Untouched(cc, PAT_PID, PMT_PID);
      NumberedCounted([a], PAT_PID, D.StartOf(a), cc);
      NumberedCounted([b], PMT_PID, D.StartOf(b), cc1);
      CountedSplit([a], [b], cc, cc1);
      AdvancedSplit(cc, [a], cc1, [b], Bump(cc1, PMT_PID));
      assert [a] + [b] == [a, b];
    case Unit(pid, key, streamID, pts, dts, data) =>
      RunNumbered(pid, CounterOf(cc, pid), true, key, dts, UnitBytes(it), 0);
      NumberedCounted(ItemPackets(it, cc), pid, true, cc);
  }

  lemma Untouched(cc: map<u16, byte>, pid: u16, other: u16)
    requires pid != other
    ensures CounterOf(Bump(cc, pid), other) == CounterOf(cc, other)
  {}

  lemma AdvancedSplit(cc: map<u16, byte>, a: seq<seq<byte>>, cc1: map<u16, byte>, b: seq<seq<byte>>, cc2: map<u16, byte>)
    requires AllFramed(a) && AllFramed(b) && Advanced(cc, a, cc1) && Advanced(cc1, b, cc2)
    ensures AllFramed(a + b) && Advanced(cc, a + b, cc2)
  {
    hide CounterOf, Seen;
    forall pid: u16
      ensures CounterOf(cc2, pid) % 0x10 == (CounterOf(cc, pid) + Seen(a + b, pid)) % 0x10
    {
      SeenSplit(a, b, pid);
      var c1 := CounterOf(cc1, pid);
      ModSum(CounterOf(cc, pid), Seen(a, pid), c1, Seen(b, pid));
    }
  }

  /**
    In a segment of any items, surviving or not, every packet is a 188-byte frame with the sync byte and
    the i-th packet of each PID has continuity counter i modulo 16.
   */
  lemma SegmentContinuity(items: seq<Item>)
    requires forall it :: it in items ==> Proper(it)
    ensures
      var ps := SegmentPackets(items, map[]);
      && AllFramed(ps)
      && forall j :: 0 <= j < |ps| ==> ps[j][3] % 0x10 == Seen(ps[..j], D.PidOf(ps[j])) % 0x10
  {
    hide SegmentPackets, Seen;
    SegmentCounted(items, map[]);
    var ps := SegmentPackets(items, map[]);
    forall j | 0 <= j < |ps|
      ensures Framed(ps[j]) && AllFramed(ps[..j])
      ensures ps[j][3] % 0x10 == Seen(ps[..j], D.PidOf(ps[j])) % 0x10
    {
      assert CountedAt(ps, map[], j);
    }
  }

  lemma {:induction false} SegmentCounted(items: seq<Item>, cc: map<u16, byte>)
    requires forall it :: it in items ==> Proper(it)
    ensures Counted(SegmentPackets(items, cc), cc)
    decreases |items|
  {
    hide ItemPackets, ItemCounters, Counted, Advanced, Proper;
    if items == [] {
      NoneCounted(cc);
    } else {
      ItemCounted(items[0], cc);
      SegmentCounted(items[1..], ItemCounters(items[0], cc));
      CountedSplit(ItemPackets(items[0], cc), SegmentPackets(items[1..], ItemCounters(items[0], cc)), cc, ItemCounters(items[0], cc));
    }
  }

  lemma NoneCounted(cc: map<u16, byte>)
    ensures Counted([], cc)
  {}

  // ----- The writer -----

  /** `writePSI`: both tables, the streams of the second in whatever order the map range picks. */
  method WritePSI(videoType: byte, cc: Counters, writer: Pes.EasyWriter) returns (ok: bool, ghost order: seq<u16>)
    modifies cc, writer
    ensures ok && StreamOrder(order)
    ensures writer.written == old(writer.written) + PatPacket(CounterOf(old(cc.next), PAT_PID))
                              + PmtPacket(CounterOf(old(cc.next), PMT_PID), videoType, order)
    ensures cc.next == Bump(Bump(old(cc.next), PAT_PID), PMT_PID)
  {
    hide PatSection, PmtSection, SectionCut, Bump;
    var ts := new TS(PAT_PID, cc, true);
    var finish, err1;
    ghost var programs;
    finish, err1, programs := ts.Mux(PatPayload(SEGMENT_PAT), false, 0, writer);
    OneProgram(programs);
    SectionRead(PAT_PID, CounterOf(old(cc.next), PAT_PID), PatSection(SEGMENT_PAT, [PMT_PID]));
    ghost var middle, counters := writer.written, cc.next;
    var ts2 := new TS(PMT_PID, cc, true);
    var err2;
    finish, err2, order := ts2.Mux(PmtPayload(SegmentPmt(videoType)), false, 0, writer);
    StreamOrders(order, videoType);
    SectionRead(PMT_PID, CounterOf(counters, PMT_PID), PmtSection(SegmentPmt(videoType), order));
    Untouched(old(cc.next), PAT_PID, PMT_PID);
    ok := !err1 && !err2;
  }

  lemma OneProgram(order: seq<u16>)
    requires Enumerates(order, SEGMENT_PAT.programs)
    ensures order == [PMT_PID]
  {
    EnumerationSize(order, SEGMENT_PAT.programs);
    assert SEGMENT_PAT.programs.Keys == {PMT_PID};
    assert |order| == 1 && order[0] in order;
  }
}
