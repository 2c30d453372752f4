/**
  Program specific information of libmpeg/psi.go: PAT and PMT sections, written for
  any iteration order of the maps they come from.
 */
module Psi {
  import opened Bytes
  import opened Pes
  import opened Wrappers
  import Crc32

  function Bits(b: seq<byte>): (r: seq<bv8>)
    ensures |r| == |b|
  {
    seq(|b|, i requires 0 <= i < |b| => b[i] as bv8)
  }

  function Crc(b: seq<byte>): u32 {
    Crc32.Checksum(Bits(b)) as int
  }

  datatype Stream = Stream(streamID: byte, streamType: byte)

  datatype Pat = Pat(
    tableID: byte, sectionSyntaxIndicator: byte, sectionLength: u16, transportStreamID: u16,
    versionNumber: byte, currentNextIndicator: byte, sectionNumber: byte, lastSectionNumber: byte,
    programs: map<u16, u16>)

  datatype Pmt = Pmt(
    tableID: byte, sectionSyntaxIndicator: byte, sectionLength: u16, programNumber: u16,
    versionNumber: byte, currentNextIndicator: byte, sectionNumber: byte, lastSectionNumber: byte,
    pcrPid: u16, programInfoLength: u16, streams: map<u16, Stream>)

  /** One order in which a range over the map may visit its keys. */
  ghost predicate Enumerates<V>(order: seq<u16>, m: map<u16, V>) {
    Visited(order, m.Keys)
  }

  ghost predicate Visited(order: seq<u16>, keys: set<u16>) {
    && (forall k :: k in order <==> k in keys)
    && (forall i, j :: 0 <= i < j < |order| ==> order[i] != order[j])
  }

  lemma VisitedIn(order: seq<u16>, keys: set<u16>)
    requires Visited(order, keys)
    ensures forall k :: k in order ==> k in keys
  {}

  lemma VisitedNone()
    ensures Visited([], {})
  {}

  /** One more key of a range, out of those still to do. */
  lemma VisitedMore(order: seq<u16>, keys: set<u16>, todo: set<u16>, pid: u16)
    requires Visited(order, keys - todo) && pid in todo && todo <= keys
    ensures Visited(order + [pid], keys - (todo - {pid}))
  {
    assert pid !in order;
    assert keys - (todo - {pid}) == (keys - todo) + {pid};
  }

  function Members(order: seq<u16>): set<u16> {
    set k | k in order
  }

  lemma EnumerationSize<V>(order: seq<u16>, m: map<u16, V>)
    requires Enumerates(order, m)
    ensures |order| == |m|
  {
    MembersSize(order);
    assert Members(order) == m.Keys;
  }

  lemma {:induction false} MembersSize(order: seq<u16>)
    requires forall i, j :: 0 <= i < j < |order| ==> order[i] != order[j]
    ensures |Members(order)| == |order|
  {
    if order == [] {
      assert Members(order) == {};
    } else {
      var rest := order[1..];
      MembersSize(rest);
      assert order[0] !in Members(rest);
      assert Members(order) == {order[0]} + Members(rest) by {
        forall k
          ensures k in Members(order) <==> k in {order[0]} + Members(rest)
        {
          assert order == [order[0]] + rest;
        }
      }
    }
  }

  function PatHeader(pat: Pat): (b: seq<byte>)
    ensures |b| == 8
  {
    [pat.tableID,
     pat.sectionSyntaxIndicator % 2 * 0x80 + 0x30 + pat.sectionLength / 0x100 % 0x10,
     pat.sectionLength % 0x100,
     pat.transportStreamID / 0x100,
     pat.transportStreamID % 0x100,
     // the mask is 0x37: bit 2 of the version is lost
     0xc0 + pat.versionNumber % 4 * 0x02 + pat.versionNumber / 8 % 4 * 0x10 + pat.currentNextIndicator % 2,
     pat.sectionNumber,
     pat.lastSectionNumber]
  }

  function ProgramEntry(pid: u16, program: u16): (b: seq<byte>)
    ensures |b| == 4
  {
    Put16(program) + [0xe0 + pid / 0x100 % 0x20, pid % 0x100]
  }

  function PatEntries(pat: Pat, order: seq<u16>): (b: seq<byte>)
    requires forall k :: k in order ==> k in pat.programs
    ensures |b| == 4 * |order|
  {
    if order == [] then []
    else PatEntries(pat, order[..|order| - 1]) + ProgramEntry(order[|order| - 1], pat.programs[order[|order| - 1]])
  }

  function Checked(b: seq<byte>): (s: seq<byte>)
    ensures |s| == |b| + 4
  {
    b + Put32(Crc(b))
  }

  function PatSection(pat: Pat, order: seq<u16>): (b: seq<byte>)
    requires forall k :: k in order ==> k in pat.programs
    ensures |b| == 12 + 4 * |order|
  {
    Checked(PatHeader(pat) + PatEntries(pat, order))
  }

  function PmtHeader(pmt: Pmt): (b: seq<byte>)
    ensures |b| == 12
  {
    [pmt.tableID,
     pmt.sectionSyntaxIndicator % 2 * 0x80 + 0x30 + pmt.sectionLength / 0x100 % 0x10,
     pmt.sectionLength % 0x100,
     pmt.programNumber / 0x100,
     pmt.programNumber % 0x100,
     0xc0 + pmt.versionNumber % 0x20 * 0x02 + pmt.currentNextIndicator % 2,
     pmt.sectionNumber,
     pmt.lastSectionNumber,
     0xe0 + pmt.pcrPid / 0x100 % 0x20,
     pmt.pcrPid % 0x100,
     0xf0 + pmt.programInfoLength / 0x100 % 0x10,
     pmt.programInfoLength % 0x100]
  }

  /** The stream type, guessed from the stream id when it was never set. */
  function TypeOf(s: Stream): byte {
    if s.streamType != 0 then s.streamType
    else if s.streamID / 0x10 == 0x0e then 0x1b
    else if s.streamID / 0x10 == 0x0c then 0x0f
    else 0
  }

  function StreamEntry(pid: u16, s: Stream): (b: seq<byte>)
    ensures |b| == 5
  {
    [TypeOf(s), 0xe0 + pid / 0x100 % 0x20, pid % 0x100, 0xf0, 0]
  }

  function PmtEntries(pmt: Pmt, order: seq<u16>): (b: seq<byte>)
    requires forall k :: k in order ==> k in pmt.streams
    ensures |b| == 5 * |order|
  {
    if order == [] then []
    else PmtEntries(pmt, order[..|order| - 1]) + StreamEntry(order[|order| - 1], pmt.streams[order[|order| - 1]])
  }

  function PmtSection(pmt: Pmt, order: seq<u16>): (b: seq<byte>)
    requires forall k :: k in order ==> k in pmt.streams
    ensures |b| == 16 + 5 * |order|
  {
    Checked(PmtHeader(pmt) + PmtEntries(pmt, order))
  }

  method CrcBytes(b: seq<byte>) returns (c: seq<byte>)
    ensures c == Put32(Crc(b))
  {
    var crc := Crc32.CRC32(Bits(b));
    c := Put32(crc as int);
  }

  lemma PatEntriesNone(pat: Pat)
    ensures PatEntries(pat, []) == []
  {}

  lemma PatEntriesMore(pat: Pat, order: seq<u16>, pid: u16)
    requires pid in pat.programs && forall k :: k in order ==> k in pat.programs
    ensures PatEntries(pat, order + [pid]) == PatEntries(pat, order) + ProgramEntry(pid, pat.programs[pid])
  {
    assert (order + [pid])[..|order|] == order;
  }

  /** Ranges over the map in an arbitrary order, which it reports. */
  method PatBody(pat: Pat) returns (b: seq<byte>, ghost order: seq<u16>)
    ensures Enumerates(order, pat.programs)
    ensures b == PatHeader(pat) + PatEntries(pat, order)
  {
    hide PatHeader, ProgramEntry, Visited, PatEntries;
    b := PatHeader(pat);
    order := [];
    var todo := pat.programs.Keys;
    PatEntriesNone(pat);
    VisitedNone();
    assert pat.programs.Keys - todo == {};
    while todo != {}
      invariant todo <= pat.programs.Keys && Visited(order, pat.programs.Keys - todo)
      invariant forall k :: k in order ==> k in pat.programs
      invariant b == PatHeader(pat) + PatEntries(pat, order)
      decreases |todo|
    {
      var pid :| pid in todo;
      VisitedMore(order, pat.programs.Keys, todo, pid);
      PatEntriesMore(pat, order, pid);
      Regroup(PatHeader(pat), PatEntries(pat, order), ProgramEntry(pid, pat.programs[pid]));
      todo := todo - {pid};
      b := b + ProgramEntry(pid, pat.programs[pid]);
      order := order + [pid];
    }
    assert pat.programs.Keys - {} == pat.programs.Keys;
  }

  method MarshalPat(pat: Pat, writer: EasyWriter, writable: int)
    returns (n: nat, finish: bool, err: bool, ghost order: seq<u16>)
    modifies writer
    ensures Enumerates(order, pat.programs)
    ensures err <==> writable < RemainPat(pat)
    ensures err ==> n == 0 && !finish && writer.written == old(writer.written)
    ensures !err ==> finish && n == RemainPat(pat) && writer.written == old(writer.written) + PatSection(pat, order)
  {
    hide PatHeader, PatEntries, Crc, Put32, Visited;
    var b;
    b, order := PatBody(pat);
    EnumerationSize(order, pat.programs);
    VisitedIn(order, pat.programs.Keys);
    var crc := CrcBytes(b);
    b := b + crc;
    if writable < |b| {
      return 0, false, true, order;
    }
    writer.WriteFull(b);
    return |b|, true, false, order;
  }

  function RemainPat(pat: Pat): nat {
    8 + 4 + 4 * |pat.programs|
  }

  lemma PmtEntriesNone(pmt: Pmt)
    ensures PmtEntries(pmt, []) == []
  {}

  lemma PmtEntriesMore(pmt: Pmt, order: seq<u16>, pid: u16)
    requires pid in pmt.streams && forall k :: k in order ==> k in pmt.streams
    ensures PmtEntries(pmt, order + [pid]) == PmtEntries(pmt, order) + StreamEntry(pid, pmt.streams[pid])
  {
    assert (order + [pid])[..|order|] == order;
  }

  /** Ranges over the map in an arbitrary order, which it reports. */
  method PmtBody(pmt: Pmt) returns (b: seq<byte>, ghost order: seq<u16>)
    ensures Enumerates(order, pmt.streams)
    ensures b == PmtHeader(pmt) + PmtEntries(pmt, order)
  {
    hide PmtHeader, StreamEntry, Visited, PmtEntries;
    b := PmtHeader(pmt);
    order := [];
    var todo := pmt.streams.Keys;
    PmtEntriesNone(pmt);
    VisitedNone();
    assert pmt.streams.Keys - todo == {};
    while todo != {}
      invariant todo <= pmt.streams.Keys && Visited(order, pmt.streams.Keys - todo)
      invariant forall k :: k in order ==> k in pmt.streams
      invariant b == PmtHeader(pmt) + PmtEntries(pmt, order)
      decreases |todo|
    {
      var pid :| pid in todo;
      VisitedMore(order, pmt.streams.Keys, todo, pid);
      PmtEntriesMore(pmt, order, pid);
      Regroup(PmtHeader(pmt), PmtEntries(pmt, order), StreamEntry(pid, pmt.streams[pid]));
      todo := todo - {pid};
      b := b + StreamEntry(pid, pmt.streams[pid]);
      order := order + [pid];
    }
    assert pmt.streams.Keys - {} == pmt.streams.Keys;
  }

  method MarshalPmt(pmt: Pmt, writer: EasyWriter, writable: int)
    returns (n: nat, finish: bool, err: bool, ghost order: seq<u16>)
    modifies writer
    ensures Enumerates(order, pmt.streams)
    ensures err <==> writable < RemainPmt(pmt)
    ensures err ==> n == 0 && !finish && writer.written == old(writer.written)
    ensures !err ==> finish && n == RemainPmt(pmt) && writer.written == old(writer.written) + PmtSection(pmt, order)
  {
    hide PmtHeader, PmtEntries, Crc, Put32, Visited;
    var b;
    b, order := PmtBody(pmt);
    EnumerationSize(order, pmt.streams);
    VisitedIn(order, pmt.streams.Keys);
    var crc := CrcBytes(b);
    b := b + crc;
    if writable < |b| {
      return 0, false, true, order;
    }
    writer.WriteFull(b);
    return |b|, true, false, order;
  }

  function RemainPmt(pmt: Pmt): nat {
    12 + 4 + 5 * |pmt.streams|
  }
}
