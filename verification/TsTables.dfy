/**
  What the demultiplexer of libsrt/tsdemux.go learns from the tables of any encoder: program association
  and program map sections after ISO/IEC 13818-1 section 2.4.4, in one packet, behind any pointer field.
 */
module TsTables {
  import opened Bytes
  import opened Psi
  import opened PsiParse
  import opened TsRoundTrip
  import opened TsMux
  import opened TsSegment
  import D = TsDemux
  import opened Wrappers

  /** A packet whose payload is a pointer field, what it skips, a section, and anything behind it. */
  predicate Holds(pkt: seq<byte>, pid: u16, skipped: seq<byte>, section: seq<byte>, behind: seq<byte>) {
    && |pkt| == 188 && D.PidOf(pkt) == pid && |skipped| < 0x100
    && D.PayloadOf(pkt) == Some([|skipped|] + (skipped + (section + behind)))
  }

  lemma BodyBehind(skipped: seq<byte>, rest: seq<byte>)
    requires |skipped| < 0x100
    ensures
      var payload: seq<byte> := [|skipped|] + (skipped + rest);
      payload[0] as int == |skipped| && 1 + |skipped| <= |payload| && payload[1 + |skipped|..] == rest
  {}

  // ----- Program association -----

  /** The first program listed that is not the network table's, from k on. */
  function FirstUsed(pat: Pat, order: seq<u16>, k: nat): (j: nat)
    requires (forall p :: p in order ==> p in pat.programs) && k <= |order|
    ensures k <= j <= |order|
    ensures j < |order| ==> pat.programs[order[j]] != 0
    ensures forall i :: k <= i < j ==> pat.programs[order[i]] == 0
    decreases |order| - k
  {
    if k == |order| || pat.programs[order[k]] != 0 then k else FirstUsed(pat, order, k + 1)
  }

  lemma EntryIn(pat: Pat, order: seq<u16>, behind: seq<byte>, k: nat)
    requires (forall p :: p in order ==> p in pat.programs) && k < |order|
    ensures
      var body := PatSection(pat, order) + behind;
      var off := 8 + 4 * k;
      && off + 4 <= |body| - 4
      && Get16(body[off..off + 2]) == pat.programs[order[k]]
      && Get16(body[off + 2..off + 4]) % 0x2000 == order[k] % 0x2000
  {
    hide *;
    ProgramEntryAt(pat, order, k);
    EntryRead(order[k], pat.programs[order[k]]);
    PatRegion(pat, order, behind);
    var entries, e := PatEntries(pat, order), ProgramEntry(order[k], pat.programs[order[k]]);
    var body := PatSection(pat, order) + behind;
    Inside(body, 8, entries, 4 * k);
    TwoHalves(body, 8 + 4 * k, e);
    GetShort(e[..2], e);
    GetShort(e[2..4], e[2..]);
  }

  lemma PatRegion(pat: Pat, order: seq<u16>, behind: seq<byte>)
    requires forall p :: p in order ==> p in pat.programs
    ensures
      var body, entries := PatSection(pat, order) + behind, PatEntries(pat, order);
      |body| == 12 + |entries| + |behind| && |entries| == 4 * |order| && body[8..8 + |entries|] == entries
  {
    hide PatHeader, PatEntries, Crc, Put32;
    var entries := PatEntries(pat, order);
    assert PatSection(pat, order)[8..8 + |entries|] == entries;
  }

  lemma Inside(body: seq<byte>, from: nat, part: seq<byte>, k: nat)
    requires from + |part| <= |body| && body[from..from + |part|] == part && k + 4 <= |part|
    ensures body[from + k..from + k + 4] == part[k..k + 4]
  {
    var slice := body[from..from + |part|];
    assert slice[k] == body[from + k] && slice[k + 1] == body[from + k + 1];
    assert slice[k + 2] == body[from + k + 2] && slice[k + 3] == body[from + k + 3];
  }

  lemma TwoHalves(body: seq<byte>, off: nat, e: seq<byte>)
    requires off + 4 <= |body| && body[off..off + 4] == e
    ensures body[off..off + 2] == e[..2] && body[off + 2..off + 4] == e[2..4]
  {
    assert body[off..off + 2] == body[off..off + 4][..2] && body[off + 2..off + 4] == body[off..off + 4][2..];
  }

  lemma GetShort(a: seq<byte>, b: seq<byte>)
    requires |a| == 2 && a <= b
    ensures Get16(a) == Get16(b)
  {}

  lemma {:induction false} ProgramsWalked(pat: Pat, order: seq<u16>, behind: seq<byte>, k: nat)
    requires (forall p :: p in order ==> p in pat.programs) && k <= |order|
    ensures
      var body := PatSection(pat, order) + behind;
      var j := FirstUsed(pat, order, k);
      D.FirstProgram(body, 8 + 4 * k)
      == if j < |order| then Some(order[j] % 0x2000) else D.FirstProgram(body, 8 + 4 * |order|)
    decreases |order| - k
  {
    hide PatSection, Get16;
    if k < |order| {
      EntryIn(pat, order, behind, k);
      if pat.programs[order[k]] == 0 {
        ProgramsWalked(pat, order, behind, k + 1);
      }
    }
  }

  /** Behind the last program the loop goes on into the checksum when there are four bytes behind that. */
  lemma ChecksumWalked(pat: Pat, order: seq<u16>, behind: seq<byte>)
    requires forall p :: p in order ==> p in pat.programs
    ensures
      var body := PatSection(pat, order) + behind;
      var checksum := Crc(PatHeader(pat) + PatEntries(pat, order));
      && (|behind| < 4 ==> D.FirstProgram(body, 8 + 4 * |order|) == None)
      && (|behind| >= 4 && checksum >= 0x1_0000 ==> D.FirstProgram(body, 8 + 4 * |order|) == Some(checksum % 0x2000))
  {
    hide PatHeader, PatEntries, Crc, Get16, Put32;
    var body := PatSection(pat, order) + behind;
    var checksum := Crc(PatHeader(pat) + PatEntries(pat, order));
    var off := 8 + 4 * |order|;
    assert body[off..off + 4] == Put32(checksum);
    TwoHalves(body, off, Put32(checksum));
    WordHalves(checksum);
  }

  lemma WordHalves(v: u32)
    ensures Get16(Put32(v)[..2]) == v / 0x1_0000 && Get16(Put32(v)[2..4]) % 0x2000 == v % 0x2000
  {
    GetPut32(v, []);
    hide Put32;
    var b := Put32(v);
    assert b + [] == b;
    WordOf(v, b[0] as int * 0x100 + b[1] as int, b[2] as int * 0x100 + b[3] as int);
  }

  lemma WordOf(v: int, high: int, low: int)
    requires v == high * 0x1_0000 + low && 0 <= low < 0x1_0000
    ensures high == v / 0x1_0000 && low % 0x2000 == v % 0x2000
  {
    assert low == v % 0x1_0000;
    assert v == low + 0x2000 * (8 * high);
  }

  /**
    A table with a program teaches the low 13 bits of the first one's PID, whatever is listed before
    it for the network, and nothing else. A table without one teaches nothing, unless four bytes or more
    follow it: then the checksum is taken for a program.
   */
  lemma PatLearned(s: D.State, pkt: seq<byte>, pat: Pat, order: seq<u16>, skipped: seq<byte>, behind: seq<byte>)
    requires (forall p :: p in order ==> p in pat.programs) && Holds(pkt, 0, skipped, PatSection(pat, order), behind)
    ensures
      var j := FirstUsed(pat, order, 0);
      var checksum := Crc(PatHeader(pat) + PatEntries(pat, order));
      && (j < |order| ==> D.Step(s, pkt) == Some(s.(pmtPID := order[j] % 0x2000)))
      && (j == |order| && |behind| < 4 ==> D.Step(s, pkt) == Some(s))
      && (j == |order| && |behind| >= 4 && checksum >= 0x1_0000 ==> D.Step(s, pkt) == Some(s.(pmtPID := checksum % 0x2000)))
  {
    hide PatSection, D.FirstProgram, D.PayloadOf, D.PidOf, Crc;
    BodyBehind(skipped, PatSection(pat, order) + behind);
    ProgramsWalked(pat, order, behind, 0);
    ChecksumWalked(pat, order, behind);
  }

  // ----- Program map -----

  /** An elementary stream with its descriptors. */
  datatype Es = Es(streamType: byte, pid: u16, info: seq<byte>)

  datatype ProgramMap = ProgramMap(
    program: u16, version: byte, number: byte, last: byte, pcrPid: u16, info: seq<byte>, streams: seq<Es>,
    checksum: u32)

  function EsBytes(e: Es): (b: seq<byte>)
    requires |e.info| < 0x1000
    ensures |b| == 5 + |e.info|
  {
    [e.streamType, 0xe0 + e.pid / 0x100 % 0x20, e.pid % 0x100, 0xf0 + |e.info| / 0x100, |e.info| % 0x100] + e.info
  }

  predicate Short(streams: seq<Es>) {
    forall i :: 0 <= i < |streams| ==> |streams[i].info| < 0x1000
  }

  function AllEs(streams: seq<Es>): seq<byte>
    requires Short(streams)
  {
    if streams == [] then [] else EsBytes(streams[0]) + AllEs(streams[1..])
  }

  /** Everything between the length field and the end. */
  function MapLength(t: ProgramMap): nat
    requires Short(t.streams)
  {
    9 + |t.info| + |AllEs(t.streams)| + 4
  }

  predicate Fits(t: ProgramMap) {
    Short(t.streams) && MapLength(t) < 0x1000
  }

  function MapHead(t: ProgramMap): (b: seq<byte>)
    requires Fits(t)
    ensures |b| == 12
  {
    [0x02, 0xb0 + MapLength(t) / 0x100, MapLength(t) % 0x100, t.program / 0x100, t.program % 0x100,
     t.version, t.number, t.last, 0xe0 + t.pcrPid / 0x100 % 0x20, t.pcrPid % 0x100,
     0xf0 + |t.info| / 0x100, |t.info| % 0x100]
  }

  function MapSection(t: ProgramMap): seq<byte>
    requires Fits(t)
  {
    MapHead(t) + (t.info + (AllEs(t.streams) + Put32(t.checksum)))
  }

  /** The PID of the last stream of one of these types, or the one known before. */
  function LastPid(streams: seq<Es>, types: set<byte>, known: u16): u16 {
    if streams == [] then known
    else
      var e := streams[|streams| - 1];
      if e.streamType in types then e.pid % 0x2000 else LastPid(streams[..|streams| - 1], types, known)
  }

  lemma {:induction false} LastPidFirst(streams: seq<Es>, types: set<byte>, known: u16)
    requires streams != []
    ensures
      var e := streams[0];
      LastPid(streams, types, known) == LastPid(streams[1..], types, if e.streamType in types then e.pid % 0x2000 else known)
    decreases |streams|
  {
    var front := streams[..|streams| - 1];
    if front != [] {
      LastPidFirst(front, types, known);
      assert front[1..] == streams[1..][..|streams| - 2];
    } else {
      assert streams[1..] == [];
    }
  }

  lemma EsRead(body: seq<byte>, off: nat, e: Es)
    requires |e.info| < 0x1000 && off + 5 + |e.info| <= |body| && body[off..off + 5 + |e.info|] == EsBytes(e)
    ensures
      && body[off] == e.streamType && Get16(body[off + 1..off + 3]) % 0x2000 == e.pid % 0x2000
      && Get16(body[off + 3..off + 5]) % 0x1000 == |e.info|
  {
    var b := EsBytes(e);
    assert body[off] == b[0] && body[off + 1] == b[1] && body[off + 2] == b[2] && body[off + 3] == b[3] && body[off + 4] == b[4];
    LowBits(e.pid);
    LowTwelve(|e.info|);
  }

  lemma LowTwelve(n: nat)
    requires n < 0x1000
    ensures ((0xf0 + n / 0x100) * 0x100 + n % 0x100) % 0x1000 == n
  {}

  lemma {:induction false} StreamsLearned(s: D.State, body: seq<byte>, off: nat, end: nat, streams: seq<Es>)
    requires Short(streams) && end <= |body| && off + |AllEs(streams)| == end - 4 && body[off..end - 4] == AllEs(streams)
    ensures
      D.Streams(s, body, off, end)
      == s.(videoPID := LastPid(streams, {0x1b, 0x24}, s.videoPID), audioPID := LastPid(streams, {0x0f}, s.audioPID))
    decreases |streams|
  {
    hide Get16, EsBytes;
    if streams == [] {
    } else {
      var e, rest := streams[0], streams[1..];
      var next := off + 5 + |e.info|;
      var all := AllEs(streams);
      assert all == EsBytes(e) + AllEs(rest);
      hide AllEs, LastPid;
      assert body[off..next] == body[off..end - 4][..5 + |e.info|] && body[next..end - 4] == body[off..end - 4][5 + |e.info|..];
      EsRead(body, off, e);
      LastPidFirst(streams, {0x1b, 0x24}, s.videoPID);
      LastPidFirst(streams, {0x0f}, s.audioPID);
      StreamsLearned(D.Noted(s, e.streamType, e.pid % 0x2000), body, next, end, rest);
    }
  }

  lemma MapFields(t: ProgramMap, behind: seq<byte>)
    requires Fits(t)
    ensures
      var body := MapSection(t) + behind;
      |body| >= 12 && Get16(body[1..3]) % 0x1000 + 3 == MapLength(t) + 3 && Get16(body[10..12]) % 0x1000 == |t.info|
  {
    var head := MapHead(t);
    var body := MapSection(t) + behind;
    LowTwelve(|t.info|);
    LengthRead(MapLength(t));
    assert body[1] == head[1] && body[2] == head[2] && body[10] == head[10] && body[11] == head[11];
  }

  /** Where the streams are. */
  lemma MapRegion(t: ProgramMap, behind: seq<byte>)
    requires Fits(t)
    ensures
      var body := MapSection(t) + behind;
      var start, end := 12 + |t.info|, MapLength(t) + 3;
      end <= |body| && start + |AllEs(t.streams)| == end - 4 && body[start..end - 4] == AllEs(t.streams)
  {
    hide AllEs, MapHead, Put32;
    Slices(MapHead(t), t.info, AllEs(t.streams), Put32(t.checksum), behind);
  }

  lemma LengthRead(n: nat)
    requires n < 0x1000
    ensures ((0xb0 + n / 0x100) * 0x100 + n % 0x100) % 0x1000 == n
  {}

  lemma Slices(a: seq<byte>, b: seq<byte>, c: seq<byte>, d: seq<byte>, e: seq<byte>)
    ensures
      var all := a + (b + (c + d)) + e;
      all[|a| + |b|..|a| + |b| + |c|] == c && |all| == |a| + |b| + |c| + |d| + |e|
  {}

  /**
    A map teaches the PIDs of its last H.264 or HEVC stream and of its last AAC stream, whatever
    descriptors it has and whatever other streams it lists; a kind that is not listed keeps its PID.
   */
  lemma MapLearned(s: D.State, pkt: seq<byte>, t: ProgramMap, skipped: seq<byte>, behind: seq<byte>)
    requires Fits(t) && s.pmtPID != 0 && Holds(pkt, s.pmtPID, skipped, MapSection(t), behind)
    ensures
      D.Step(s, pkt)
      == Some(s.(videoPID := LastPid(t.streams, {0x1b, 0x24}, s.videoPID), audioPID := LastPid(t.streams, {0x0f}, s.audioPID)))
  {
    hide *;
    MapStep(s, pkt, skipped, t, behind);
    MapStreams(s, t, behind);
  }

  lemma MapStreams(s: D.State, t: ProgramMap, behind: seq<byte>)
    requires Fits(t)
    ensures
      var body, end := MapSection(t) + behind, MapLength(t) + 3;
      && end <= |body|
      && D.Streams(s, body, 12 + |t.info|, end)
         == s.(videoPID := LastPid(t.streams, {0x1b, 0x24}, s.videoPID), audioPID := LastPid(t.streams, {0x0f}, s.audioPID))
  {
    assert Short(t.streams);
    hide *;
    MapRegion(t, behind);
    StreamsLearned(s, MapSection(t) + behind, 12 + |t.info|, MapLength(t) + 3, t.streams);
  }

  lemma MapStep(s: D.State, pkt: seq<byte>, skipped: seq<byte>, t: ProgramMap, behind: seq<byte>)
    requires Fits(t) && s.pmtPID != 0 && Holds(pkt, s.pmtPID, skipped, MapSection(t), behind)
    ensures
      var body, end := MapSection(t) + behind, MapLength(t) + 3;
      end <= |body| && D.Step(s, pkt) == Some(D.Streams(s, body, 12 + |t.info|, end))
  {
    MapFields(t, behind);
    MapRegion(t, behind);
    BodyBehind(skipped, MapSection(t) + behind);
    hide MapSection, MapLength, AllEs, D.Streams, D.PayloadOf, D.PidOf, Get16, Fits;
  }

  // ----- The tables of libmpeg's own writer -----

  /** A type of its own, or H.264 for the ids of video streams and AAC for those of audio streams. */
  function Announced(e: Stream): byte {
    if e.streamType != 0 then e.streamType
    else if 0xe0 <= e.streamID <= 0xef then 0x1b
    else if 0xc0 <= e.streamID <= 0xcf then 0x0f
    else 0
  }

  function Listed(pmt: Pmt, order: seq<u16>): (r: seq<Es>)
    requires forall pid :: pid in order ==> pid in pmt.streams
    ensures Short(r)
  {
    if order == [] then []
    else Listed(pmt, order[..|order| - 1]) + [Es(Announced(pmt.streams[order[|order| - 1]]), order[|order| - 1], [])]
  }

  lemma {:induction false} AllEsSnoc(streams: seq<Es>, e: Es)
    requires Short(streams) && |e.info| < 0x1000
    ensures Short(streams + [e]) && AllEs(streams + [e]) == AllEs(streams) + EsBytes(e)
    decreases |streams|
  {
    hide EsBytes;
    var more := streams + [e];
    if streams == [] {
      assert more == [e] && more[1..] == [];
      assert AllEs(more[1..]) == [];
    } else {
      assert more[1..] == streams[1..] + [e];
      AllEsSnoc(streams[1..], e);
    }
  }

  lemma {:induction false} ListedWritten(pmt: Pmt, order: seq<u16>)
    requires forall pid :: pid in order ==> pid in pmt.streams
    ensures PmtEntries(pmt, order) == AllEs(Listed(pmt, order))
    decreases |order|
  {
    hide StreamEntry, EsBytes, Announced;
    if order != [] {
      var front, pid := order[..|order| - 1], order[|order| - 1];
      ListedWritten(pmt, front);
      AllEsSnoc(Listed(pmt, front), Es(Announced(pmt.streams[pid]), pid, []));
      EntryIs(pid, pmt.streams[pid]);
    }
  }

  lemma EntryIs(pid: u16, e: Stream)
    ensures StreamEntry(pid, e) == EsBytes(Es(Announced(e), pid, []))
  {}

  /** The map that a written one is, streams as listed. */
  function MapOf(pmt: Pmt, order: seq<u16>): ProgramMap
    requires forall pid :: pid in order ==> pid in pmt.streams
  {
    ProgramMap(pmt.programNumber, 0xc0 + pmt.versionNumber % 0x20 * 2 + pmt.currentNextIndicator % 2, pmt.sectionNumber,
               pmt.lastSectionNumber, pmt.pcrPid, [], Listed(pmt, order), Crc(PmtHeader(pmt) + PmtEntries(pmt, order)))
  }

  lemma MapWritten(pmt: Pmt, order: seq<u16>)
    requires forall pid :: pid in order ==> pid in pmt.streams
    requires pmt.tableID == 2 && pmt.sectionSyntaxIndicator == 1 && pmt.programInfoLength == 0
    requires pmt.sectionLength as int == 13 + 5 * |order| && pmt.sectionLength < 0x1000
    ensures Fits(MapOf(pmt, order)) && PmtSection(pmt, order) == MapSection(MapOf(pmt, order))
  {
    hide PmtEntries, Listed, AllEs, Crc, Put32;
    ListedWritten(pmt, order);
    assert MapLength(MapOf(pmt, order)) == pmt.sectionLength;
    assert PmtHeader(pmt) == MapHead(MapOf(pmt, order));
    hide PmtHeader, MapHead;
    var entries, sum := PmtEntries(pmt, order), Put32(Crc(PmtHeader(pmt) + PmtEntries(pmt, order)));
    assert [] + (entries + sum) == entries + sum;
    Regroup(PmtHeader(pmt), entries, sum);
  }

  /** Any map that libmpeg writes with the right lengths teaches the last video and audio streams as announced. */
  lemma WrittenMapLearned(s: D.State, pkt: seq<byte>, pmt: Pmt, order: seq<u16>, skipped: seq<byte>, behind: seq<byte>)
    requires forall pid :: pid in order ==> pid in pmt.streams
    requires pmt.tableID == 2 && pmt.sectionSyntaxIndicator == 1 && pmt.programInfoLength == 0
    requires pmt.sectionLength as int == 13 + 5 * |order| && pmt.sectionLength < 0x1000
    requires s.pmtPID != 0 && Holds(pkt, s.pmtPID, skipped, PmtSection(pmt, order), behind)
    ensures
      var streams := Listed(pmt, order);
      D.Step(s, pkt)
      == Some(s.(videoPID := LastPid(streams, {0x1b, 0x24}, s.videoPID), audioPID := LastPid(streams, {0x0f}, s.audioPID)))
  {
    hide *;
    MapWritten(pmt, order);
    MapIs(pmt, order);
    MapLearned(s, pkt, MapOf(pmt, order), skipped, behind);
  }

  lemma MapIs(pmt: Pmt, order: seq<u16>)
    requires forall pid :: pid in order ==> pid in pmt.streams
    ensures MapOf(pmt, order).streams == Listed(pmt, order)
  {
    hide Listed, Crc, PmtHeader, PmtEntries;
  }

  lemma SegmentPatCarried()
    ensures SEGMENT_PAT == Pat(0, 1, 13, 1, 0, 1, 0, 0, map[0x1001 := 1])
    ensures Enumerates([PMT_PID], SEGMENT_PAT.programs) && PatCarried(SEGMENT_PAT)
  {
    assert |SEGMENT_PAT.programs| == 1;
  }

  lemma SegmentPmtCarried(videoType: byte, order: seq<u16>)
    requires StreamOrder(order)
    ensures Enumerates(order, SegmentPmt(videoType).streams) && PmtCarried(SegmentPmt(videoType))
    ensures Summary(SegmentPmt(videoType)) == PmtRead(2, 1, 23, 1, 0, 1, 0, 0, 0x100, 0, {0x100, 0x101})
  {
    var pmt := SegmentPmt(videoType);
    assert pmt.streams.Keys == {0x100, 0x101};
    assert Enumerates(order, pmt.streams);
    EnumerationSize(order, pmt.streams);
  }

  /** The tables of a segment, as `PAT.Parse` and `PMT.Parse` read them. */
  lemma SegmentTablesParse(videoType: byte, order: seq<u16>)
    requires StreamOrder(order)
    ensures Enumerates([PMT_PID], SEGMENT_PAT.programs) && Enumerates(order, SegmentPmt(videoType).streams)
    ensures ParsePat(PatSection(SEGMENT_PAT, [PMT_PID]), map[]) == Some(Pat(0, 1, 13, 1, 0, 1, 0, 0, map[0x1001 := 1]))
    ensures
      ParsePmt(PmtSection(SegmentPmt(videoType), order)) == Some(PmtRead(2, 1, 23, 1, 0, 1, 0, 0, 0x100, 0, {0x100, 0x101}))
  {
    hide *;
    SegmentPatCarried();
    SegmentPmtCarried(videoType, order);
    PatRoundTrip(SEGMENT_PAT, [PMT_PID]);
    PmtRoundTrip(SegmentPmt(videoType), order);
  }

  // ----- Both tables again -----

  /**
    Tables of any encoder, sent again, change nothing in a demultiplexer that has read them: its streams are
    then told apart by `TsSegment.Projects`, whatever their PIDs.
   */
  lemma TablesKept(ids: Pids, first: seq<byte>, pat: Pat, order: seq<u16>, second: seq<byte>, t: ProgramMap,
                   skipped: seq<byte>, behind: seq<byte>, skipped': seq<byte>, behind': seq<byte>)
    requires Distinct(ids) && Fits(t) && Framed(first) && Framed(second)
    requires forall p :: p in order ==> p in pat.programs
    requires Holds(first, 0, skipped, PatSection(pat, order), behind)
    requires Holds(second, ids.pmt, skipped', MapSection(t), behind')
    requires FirstUsed(pat, order, 0) < |order| && order[FirstUsed(pat, order, 0)] % 0x2000 == ids.pmt
    requires LastPid(t.streams, {0x1b, 0x24}, ids.video) == ids.video && LastPid(t.streams, {0x0f}, ids.audio) == ids.audio
    ensures Restates(first, ids) && Restates(second, ids)
  {
    hide Holds, Fits, PatSection, MapSection, D.Step, FirstUsed, LastPid;
    forall s: D.State | Knows(s, ids)
      ensures D.Step(s, first) == Some(s) && D.Step(s, second) == Some(s)
    {
      PatLearned(s, first, pat, order, skipped, behind);
      MapLearned(s, second, t, skipped', behind');
    }
  }
}
