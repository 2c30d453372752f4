/**
  Reading back the tables of libmpeg/psi.go: `PAT.Parse` and `PMT.Parse` on the sections their
  `Marshal` writes, for any order in which the maps were ranged over.
 */
module PsiParse {
  import opened Bytes
  import opened Psi
  import opened Wrappers

  // ----- The program association table -----

  /** The program loop over the entries from i on; a PID seen before keeps its program. */
  function Programs(b: seq<byte>, i: nat, m: map<u16, u16>): map<u16, u16>
    decreases |b| - i
  {
    if i + 4 > |b| then m
    else
      var program, pid := Get16(b[i..]), Get16(b[i + 2..]) % 0x2000;
      Programs(b, i + 4, if program == 0 || pid in m then m else m[pid := program])
  }

  predicate PatRefused(tableID: byte, syntax: byte, sectionLength: u16) {
    tableID != 0 || syntax != 1 || sectionLength / 0x400 % 4 != 0 || sectionLength > 0x3fd
  }

  function LengthIn(header: seq<byte>): u16
    requires |header| >= 8
  {
    header[1] % 0x10 * 0x100 + header[2] as int
  }

  function PatIn(header: seq<byte>, programs: map<u16, u16>): Pat
    requires |header| >= 8
  {
    Pat(header[0], header[1] / 0x80, LengthIn(header), Get16(header[3..]), header[5] / 2 % 0x20, header[5] % 2,
        header[6], header[7], programs)
  }

  /** The table whose programs take up size bytes. */
  function PatBehind(reader: seq<byte>, size: nat, known: map<u16, u16>): Option<Pat>
    requires |reader| >= 8
  {
    if PatRefused(reader[0], reader[1] / 0x80, LengthIn(reader)) || |reader| < 12 + size then None
    else if Get32(reader[8 + size..]) != Crc(reader[..8 + size]) then None
    else Some(PatIn(reader, Programs(reader[8..8 + size], 0, known)))
  }

  /** `PAT.Parse` of what a reader holds, from the PMTs already known; None is an error. */
  function ParsePat(reader: seq<byte>, known: map<u16, u16>): Option<Pat> {
    if |reader| < 8 then None else PatBehind(reader, U16(LengthIn(reader) as int - 9), known)
  }

  method ReadPat(reader: seq<byte>, known: map<u16, u16>) returns (r: Option<Pat>)
    ensures r == ParsePat(reader, known)
  {
    hide Crc, Get32, Get16;
    if |reader| < 8 {
      return None;
    }
    var b1 := reader[..8];
    var syntax := b1[1] / 0x80;
    var sectionLength: int := b1[1] % 0x10 * 0x100 + b1[2] as int;
    if b1[0] != 0 || syntax != 1 || sectionLength / 0x400 % 4 != 0 || sectionLength > 0x3fd {
      return None;
    }
    var size: int := U16(sectionLength - 9);
    if |reader| < 8 + size {
      return None;
    }
    var b2 := reader[8..8 + size];
    var pmts: map<u16, u16> := known;
    var i := 0;
    while i + 4 <= |b2|
      invariant 0 <= i
      invariant Programs(b2, i, pmts) == Programs(b2, 0, known)
    {
      var programNumber := Get16(b2[i..]);
      if programNumber != 0 {
        var pmtPID := Get16(b2[i + 2..]) % 0x2000;
        if pmtPID !in pmts {
          pmts := pmts[pmtPID := programNumber];
        }
      }
      i := i + 4;
    }
    assert b1 + b2 == reader[..8 + size];
    var crc := CrcBytes(b1 + b2);
    if |reader| < 12 + size {
      return None;
    }
    var b3 := reader[8 + size..12 + size];
    CrcMatches(reader[8 + size..], Crc(b1 + b2));
    assert b3 == reader[8 + size..][..4];
    if b3 != crc {
      return None;
    }
    assert Get16(reader[3..]) == Get16(b1[3..]) by { FrontFields(reader); }
    return Some(Pat(b1[0], syntax, sectionLength, Get16(b1[3..]), b1[5] / 2 % 0x20, b1[5] % 2, b1[6], b1[7], pmts));
  }

  lemma FrontFields(reader: seq<byte>)
    requires |reader| >= 8
    ensures Get16(reader[3..]) == Get16(reader[..8][3..])
  {}

  /** Comparing four bytes is comparing the numbers they write. */
  lemma CrcMatches(b: seq<byte>, crc: u32)
    requires |b| >= 4
    ensures b[..4] == Put32(crc) <==> Get32(b) == crc
  {
    PutGet32(b[..4]);
    assert Get32(b) == Get32(b[..4]);
    GetPut32(crc, []);
    assert Put32(crc) + [] == Put32(crc);
  }

  lemma {:induction false} ProgramsSize(b: seq<byte>, i: nat, m: map<u16, u16>)
    requires i <= |b|
    ensures 4 * |Programs(b, i, m)| <= 4 * |m| + |b| - i
    decreases |b| - i
  {
    hide Get16;
    if i + 4 <= |b| {
      var program, pid := Get16(b[i..]), Get16(b[i + 2..]) % 0x2000;
      ProgramsSize(b, i + 4, if program == 0 || pid in m then m else m[pid := program]);
    }
  }

  /** The entry written for the k-th key visited. */
  lemma {:induction false} ProgramEntryAt(pat: Pat, order: seq<u16>, k: nat)
    requires (forall p :: p in order ==> p in pat.programs) && k < |order|
    ensures PatEntries(pat, order)[4 * k..4 * k + 4] == ProgramEntry(order[k], pat.programs[order[k]])
    decreases |order|
  {
    hide ProgramEntry;
    var front := order[..|order| - 1];
    if k < |order| - 1 {
      ProgramEntryAt(pat, front, k);
      assert PatEntries(pat, order)[..4 * |front|] == PatEntries(pat, front);
      assert PatEntries(pat, order)[4 * k..4 * k + 4] == PatEntries(pat, front)[4 * k..4 * k + 4];
    }
  }

  lemma FourAt(b: seq<byte>, i: nat, e: seq<byte>)
    requires i + 4 <= |b| && b[i..i + 4] == e
    ensures Get16(b[i..]) == Get16(e) && Get16(b[i + 2..]) == Get16(e[2..])
  {
    assert b[i] == b[i..i + 4][0] && b[i + 1] == b[i..i + 4][1] && b[i + 2] == b[i..i + 4][2] && b[i + 3] == b[i..i + 4][3];
  }

  lemma ProgramRead(pat: Pat, order: seq<u16>, k: nat)
    requires (forall p :: p in order ==> p in pat.programs) && k < |order|
    ensures
      var b := PatEntries(pat, order);
      Get16(b[4 * k..]) == pat.programs[order[k]] && Get16(b[4 * k + 2..]) % 0x2000 == order[k] % 0x2000
  {
    ProgramEntryAt(pat, order, k);
    hide PatEntries;
    var e := ProgramEntry(order[k], pat.programs[order[k]]);
    FourAt(PatEntries(pat, order), 4 * k, e);
    EntryRead(order[k], pat.programs[order[k]]);
    hide ProgramEntry, Get16;
  }

  lemma EntryRead(pid: u16, program: u16)
    ensures Get16(ProgramEntry(pid, program)) == program && Get16(ProgramEntry(pid, program)[2..]) % 0x2000 == pid % 0x2000
  {
    LowBits(pid);
  }

  lemma LowBits(pid: u16)
    ensures ((0xe0 + pid / 0x100 % 0x20) * 0x100 + pid % 0x100) % 0x2000 == pid % 0x2000
  {
    var high := pid / 0x100;
    assert pid == high * 0x100 + pid % 0x100;
    assert high == high / 0x20 * 0x20 + high % 0x20;
  }

  /** A program found is one of those written from entry k on. */
  predicate Written(pat: Pat, order: seq<u16>, k: nat, pid: u16, program: u16)
    requires (forall p :: p in order ==> p in pat.programs) && k <= |order|
  {
    program != 0 && exists j :: k <= j < |order| && order[j] % 0x2000 == pid && program == pat.programs[order[j]]
  }

  /** What the program loop finds in the entries written: each nonzero program under its PID's low 13 bits, and nothing else. */
  lemma {:induction false} ProgramsFound(pat: Pat, order: seq<u16>, k: nat, m: map<u16, u16>)
    requires (forall p :: p in order ==> p in pat.programs) && k <= |order|
    ensures
      var r := Programs(PatEntries(pat, order), 4 * k, m);
      && (forall p :: p in m ==> p in r && r[p] == m[p])
      && (forall j :: k <= j < |order| && pat.programs[order[j]] != 0 ==> order[j] % 0x2000 in r)
      && (forall p :: p in r && p !in m ==> Written(pat, order, k, p, r[p]))
    decreases |order| - k
  {
    hide Get16;
    if k < |order| {
      ProgramRead(pat, order, k);
      hide PatEntries;
      var program, pid := pat.programs[order[k]], order[k] % 0x2000;
      ProgramsFound(pat, order, k + 1, if program == 0 || pid in m then m else m[pid := program]);
    }
  }

  // ----- When the table comes back -----

  /** The fields of a table that its header can carry. */
  predicate HeaderCarried(pat: Pat) {
    && pat.tableID == 0 && pat.sectionSyntaxIndicator == 1 && pat.sectionLength <= 0x3fd
    && pat.versionNumber < 0x20 && pat.versionNumber / 4 % 2 == 0 && pat.currentNextIndicator < 2
  }

  predicate Readable(programs: map<u16, u16>) {
    forall pid :: pid in programs ==> pid < 0x2000 && programs[pid] != 0
  }

  /** Everything about a table that its bytes can carry. */
  predicate PatCarried(pat: Pat) {
    HeaderCarried(pat) && U16(pat.sectionLength - 9) == 4 * |pat.programs| && Readable(pat.programs)
  }

  /** The table a parser finds behind a written header, with the programs it finds. */
  function Found(pat: Pat, programs: map<u16, u16>): Pat {
    Pat(pat.tableID, pat.sectionSyntaxIndicator % 2, pat.sectionLength % 0x1000, pat.transportStreamID,
        pat.versionNumber % 4 + pat.versionNumber / 8 % 4 * 8, pat.currentNextIndicator % 2,
        pat.sectionNumber, pat.lastSectionNumber, programs)
  }

  predicate HeaderRefused(pat: Pat) {
    PatRefused(pat.tableID, pat.sectionSyntaxIndicator % 2, pat.sectionLength % 0x1000)
  }

  lemma FoundIs(pat: Pat, programs: map<u16, u16>)
    ensures !HeaderRefused(pat) && Found(pat, programs) == pat <==> HeaderCarried(pat) && programs == pat.programs
    ensures pat.sectionLength <= 0x3fd ==> pat.sectionLength % 0x1000 == pat.sectionLength
    ensures Found(pat, programs).programs == programs
  {
    VersionKept(pat.versionNumber);
  }

  /** The header fields that a parser finds. */
  lemma PatHeaderRead(pat: Pat, tail: seq<byte>)
    ensures
      var b := PatHeader(pat) + tail;
      && b[0] == pat.tableID && b[1] / 0x80 == pat.sectionSyntaxIndicator % 2
      && b[1] % 0x10 * 0x100 + b[2] as int == pat.sectionLength % 0x1000
      && Get16(b[3..]) == pat.transportStreamID
      && b[5] / 2 % 0x20 == pat.versionNumber % 4 + pat.versionNumber / 8 % 4 * 8 && b[5] % 2 == pat.currentNextIndicator % 2
      && b[6] == pat.sectionNumber && b[7] == pat.lastSectionNumber
  {
    LengthBits(pat.sectionSyntaxIndicator % 2, pat.sectionLength);
    VersionBits(pat.versionNumber % 4, pat.versionNumber / 8 % 4, pat.currentNextIndicator % 2);
    var b := PatHeader(pat) + tail;
    assert b[3..][0] == b[3] && b[3..][1] == b[4];
  }

  lemma LengthBits(indicator: int, length: u16)
    requires 0 <= indicator < 2
    ensures
      var b := indicator * 0x80 + 0x30 + length / 0x100 % 0x10;
      && b / 0x80 == indicator && b % 0x10 == length / 0x100 % 0x10
      && length / 0x100 % 0x10 * 0x100 + length % 0x100 == length % 0x1000
  {
    assert length == length / 0x100 / 0x10 * 0x1000 + (length / 0x100 % 0x10 * 0x100 + length % 0x100);
  }

  lemma VersionBits(low: int, high: int, next: int)
    requires 0 <= low < 4 && 0 <= high < 4 && 0 <= next < 2
    ensures
      var b := 0xc0 + low * 0x02 + high * 0x10 + next;
      b / 2 % 0x20 == low + high * 8 && b % 2 == next
  {
    assert (0xc0 + low * 0x02 + high * 0x10 + next) / 2 == 0x60 + low + high * 8;
  }

  lemma VersionKept(v: byte)
    ensures v % 4 + v / 8 % 4 * 8 == v <==> v < 0x20 && v / 4 % 2 == 0
  {}

  lemma SectionParts(h: seq<byte>, entries: seq<byte>, n: nat)
    requires n <= |entries|
    ensures
      var b := h + entries;
      var s := Checked(b);
      && s == h + (entries + Put32(Crc(b)))
      && (n == |entries| ==> s[..|h| + n] == b && Get32(s[|h| + n..]) == Crc(b))
      && s[|h|..|h| + n] == entries[..n]
  {
    var b := h + entries;
    hide Crc, Get32, Put32;
    var s := Checked(b);
    assert s == h + (entries + Put32(Crc(b)));
    if n == |entries| {
      assert s[|h| + n..] == Put32(Crc(b)) + [];
      GetPut32(Crc(b), []);
    }
  }

  lemma ProgramFound(pat: Pat, order: seq<u16>, pid: u16)
    requires Enumerates(order, pat.programs) && pid in pat.programs && pid < 0x2000 && pat.programs[pid] != 0
    ensures pid in Programs(PatEntries(pat, order), 0, map[])
  {
    VisitedIn(order, pat.programs.Keys);
    VisitedAt(order, pat.programs.Keys, pid);
    var j :| 0 <= j < |order| && order[j] == pid;
    hide Visited;
    assert order[j] % 0x2000 in Programs(PatEntries(pat, order), 0, map[]) by {
      ProgramsFound(pat, order, 0, map[]);
    }
    hide PatEntries, Programs;
    assert pid % 0x2000 == pid;
  }

  lemma FoundProgram(pat: Pat, order: seq<u16>, pid: u16)
    requires Enumerates(order, pat.programs)
    ensures
      var r := Programs(PatEntries(pat, order), 0, map[]);
      pid in r ==>
        && pid < 0x2000 && r[pid] != 0
        && (Readable(pat.programs) ==> pid in pat.programs && r[pid] == pat.programs[pid])
  {
    VisitedIn(order, pat.programs.Keys);
    var r := Programs(PatEntries(pat, order), 0, map[]);
    if pid in r {
      assert Written(pat, order, 0, pid, r[pid]) by {
        ProgramsFound(pat, order, 0, map[]);
      }
      hide PatEntries, Programs, Visited;
      var j :| 0 <= j < |order| && order[j] % 0x2000 == pid && r[pid] == pat.programs[order[j]];
      Whose(order[j], pid);
      assert order[j] in order && order[j] in pat.programs;
    }
  }

  lemma Whose(p: u16, pid: u16)
    requires p % 0x2000 == pid
    ensures pid < 0x2000 && (p < 0x2000 ==> p == pid)
  {}

  lemma ProgramsWhole(pat: Pat, order: seq<u16>)
    requires Enumerates(order, pat.programs)
    ensures Programs(PatEntries(pat, order), 0, map[]) == pat.programs <==> Readable(pat.programs)
  {
    VisitedIn(order, pat.programs.Keys);
    hide PatEntries, Programs, Visited;
    var r := Programs(PatEntries(pat, order), 0, map[]);
    forall pid | pid in r
      ensures pid < 0x2000 && r[pid] != 0
      ensures Readable(pat.programs) ==> pid in pat.programs && r[pid] == pat.programs[pid]
    {
      FoundProgram(pat, order, pid);
    }
    if Readable(pat.programs) {
      forall pid | pid in pat.programs
        ensures pid in r
      {
        ProgramFound(pat, order, pid);
      }
      assert r.Keys == pat.programs.Keys;
    }
  }

  lemma VisitedAt(order: seq<u16>, keys: set<u16>, pid: u16)
    requires Visited(order, keys) && pid in keys
    ensures exists j :: 0 <= j < |order| && order[j] == pid
  {
    assert pid in order;
  }

  /** What parsing makes of a section when its length field says size. */
  lemma PatParsed(pat: Pat, order: seq<u16>, size: nat)
    requires (forall k :: k in order ==> k in pat.programs) && size <= 4 * |order|
    ensures
      var entries := PatEntries(pat, order);
      var r := PatBehind(PatSection(pat, order), size, map[]);
      && (r.Some? ==> !HeaderRefused(pat) && r == Some(Found(pat, Programs(entries[..size], 0, map[]))))
      && (size == |entries| && !HeaderRefused(pat) ==> r.Some?)
  {
    var entries := PatEntries(pat, order);
    SectionParts(PatHeader(pat), entries, size);
    FieldsRead(pat, order, Programs(entries[..size], 0, map[]));
    hide PatHeader, PatEntries, Crc, Get16, Get32, Put32, Checked, Programs, PatRefused, PatIn, LengthIn, Found;
  }

  lemma FieldsRead(pat: Pat, order: seq<u16>, programs: map<u16, u16>)
    requires forall k :: k in order ==> k in pat.programs
    ensures
      var section := PatSection(pat, order);
      && LengthIn(section) == pat.sectionLength % 0x1000
      && PatIn(section, programs) == Found(pat, programs)
      && (PatRefused(section[0], section[1] / 0x80, LengthIn(section)) <==> HeaderRefused(pat))
  {
    var tail := PatEntries(pat, order) + Put32(Crc(PatHeader(pat) + PatEntries(pat, order)));
    PatHeaderRead(pat, tail);
    hide PatHeader, PatEntries, Crc, Get16, Put32, PatRefused;
    assert PatSection(pat, order) == PatHeader(pat) + tail;
  }

  lemma PatOverrun(reader: seq<byte>, size: nat)
    requires 8 <= |reader| < 12 + size
    ensures PatBehind(reader, size, map[]).None?
  {}

  /** The bytes that the length field leaves for the programs. */
  function ProgramsLength(pat: Pat): u16 {
    U16(pat.sectionLength % 0x1000 - 9)
  }

  lemma PatLengths(pat: Pat, order: seq<u16>)
    requires forall k :: k in order ==> k in pat.programs
    ensures
      var size: int := ProgramsLength(pat);
      && ParsePat(PatSection(pat, order), map[]) == PatBehind(PatSection(pat, order), size, map[])
      && (size > 4 * |order| ==> ParsePat(PatSection(pat, order), map[]).None?)
  {
    FieldsRead(pat, order, map[]);
    var size: int := ProgramsLength(pat);
    if size > 4 * |order| {
      PatOverrun(PatSection(pat, order), size);
    }
    hide PatSection, U16, PatBehind, PatIn, LengthIn;
  }

  lemma PatCarriedWhen(pat: Pat)
    ensures
      PatCarried(pat) <==> HeaderCarried(pat) && ProgramsLength(pat) == 4 * |pat.programs| && Readable(pat.programs)
  {
    hide Readable;
  }

  /** What the program loop finds in the part of the entries that the length claims. */
  lemma ClaimedPrograms(pat: Pat, order: seq<u16>, size: nat)
    requires Enumerates(order, pat.programs) && size <= 4 * |order|
    ensures
      var programs := Programs(PatEntries(pat, order)[..size], 0, map[]);
      !HeaderRefused(pat) && Found(pat, programs) == pat
      <==> size == 4 * |pat.programs| && HeaderCarried(pat) && Readable(pat.programs)
  {
    var entries := PatEntries(pat, order);
    hide *;
    EnumerationSize(order, pat.programs);
    var programs := Programs(entries[..size], 0, map[]);
    FoundIs(pat, programs);
    if size == 4 * |order| {
      ProgramsWhole(pat, order);
      assert entries[..size] == entries;
    } else {
      ProgramsSize(entries[..size], 0, map[]);
      assert |programs| < |pat.programs|;
    }
  }

  /** The theorem once the length is known. */
  lemma ParsedPrograms(pat: Pat, order: seq<u16>, size: nat)
    requires Enumerates(order, pat.programs)
    requires size > 4 * |order| ==> PatBehind(PatSection(pat, order), size, map[]).None?
    ensures
      PatBehind(PatSection(pat, order), size, map[]) == Some(pat)
      <==> HeaderCarried(pat) && size == 4 * |pat.programs| && Readable(pat.programs)
  {
    VisitedIn(order, pat.programs.Keys);
    hide *;
    EnumerationSize(order, pat.programs);
    if size <= 4 * |order| {
      PatParsed(pat, order, size);
      ClaimedPrograms(pat, order, size);
    }
  }

  /**
    A written table parses back to itself, whatever order its map was visited in, if and only if its
    bytes can carry it.
   */
  lemma PatRoundTrip(pat: Pat, order: seq<u16>)
    requires Enumerates(order, pat.programs)
    ensures ParsePat(PatSection(pat, order), map[]) == Some(pat) <==> PatCarried(pat)
  {
    VisitedIn(order, pat.programs.Keys);
    hide *;
    PatLengths(pat, order);
    PatCarriedWhen(pat);
    ParsedPrograms(pat, order, ProgramsLength(pat));
  }

  // ----- The program map table -----

  /** What `PMT.Parse` fills in: the streams' PIDs, but not their types. */
  datatype PmtRead = PmtRead(
    tableID: byte, sectionSyntaxIndicator: byte, sectionLength: u16, programNumber: u16,
    versionNumber: byte, currentNextIndicator: byte, sectionNumber: byte, lastSectionNumber: byte,
    pcrPid: u16, programInfoLength: u16, pids: set<u16>)

  function Summary(pmt: Pmt): PmtRead {
    PmtRead(pmt.tableID, pmt.sectionSyntaxIndicator, pmt.sectionLength, pmt.programNumber, pmt.versionNumber,
            pmt.currentNextIndicator, pmt.sectionNumber, pmt.lastSectionNumber, pmt.pcrPid, pmt.programInfoLength,
            pmt.streams.Keys)
  }

  /** The stream loop from i on; None when a descriptor length has a forbidden bit set. */
  function Pids(b: seq<byte>, i: nat, known: set<u16>): Option<set<u16>>
    decreases |b| - i
  {
    if i + 5 > |b| then Some(known)
    else
      var pid := Get16(b[i + 1..]) % 0x2000;
      var info := Get16(b[i + 3..]) % 0x1000;
      if pid in known then Pids(b, i + 5, known)
      else if info / 0x400 != 0 then None
      else Pids(b, i + 5 + info, known + {pid})
  }

  /** The fields before the loop. The high bits of both lengths are shifted out of a byte, and lost. */
  function PmtIn(header: seq<byte>, pids: set<u16>): PmtRead
    requires |header| >= 12
  {
    PmtRead(header[0], header[1] / 0x80, header[2], Get16(header[3..]), header[5] / 2 % 0x20, header[5] % 2,
            header[6], header[7], Get16(header[8..]) % 0x2000, header[11], pids)
  }

  predicate PmtRefused(p: PmtRead) {
    p.tableID != 2 || p.sectionSyntaxIndicator != 1 || p.sectionNumber != 0 || p.lastSectionNumber != 0
  }

  /** The table whose descriptors and streams take up info and size bytes. */
  function PmtBehind(reader: seq<byte>, info: nat, size: nat): Option<PmtRead>
    requires |reader| >= 12
  {
    if PmtRefused(PmtIn(reader, {})) || |reader| < 16 + info + size then None
    else
      var pids := Pids(reader[12 + info..12 + info + size], 0, {});
      if pids.None? || Get32(reader[12 + info + size..]) != Crc(reader[..12 + info + size]) then None
      else Some(PmtIn(reader, pids.value))
  }

  /** `PMT.Parse` of what a reader holds, into a table without streams. */
  function ParsePmt(reader: seq<byte>): Option<PmtRead> {
    if |reader| < 12 then None
    else
      var info := reader[11] as int;
      PmtBehind(reader, info, U16(reader[2] as int - 9 - info - 4))
  }

  method ReadPmt(reader: seq<byte>) returns (r: Option<PmtRead>)
    ensures r == ParsePmt(reader)
  {
    hide Crc, Get32, Get16;
    if |reader| < 12 {
      return None;
    }
    var b1 := reader[..12];
    var table := PmtIn(b1, {});
    PmtFront(reader);
    if table.tableID != 2 || table.sectionSyntaxIndicator != 1 || table.sectionNumber != 0 || table.lastSectionNumber != 0 {
      return None;
    }
    var info: int := table.programInfoLength;
    if |reader| < 12 + info {
      return None;
    }
    var b2 := reader[12..12 + info];
    var size: int := U16(table.sectionLength - 9 - info - 4);
    if |reader| < 12 + info + size {
      return None;
    }
    var b3 := reader[12 + info..12 + info + size];
    var pids: set<u16> := {};
    var i := 0;
    while i + 5 <= |b3|
      invariant 0 <= i
      invariant Pids(b3, i, pids) == Pids(b3, 0, {})
    {
      var streamPID := Get16(b3[i + 1..]) % 0x2000;
      if streamPID !in pids {
        var esInfoLength := Get16(b3[i + 3..]) % 0x1000;
        if esInfoLength / 0x400 != 0 {
          return None;
        }
        i := i + esInfoLength;
        pids := pids + {streamPID};
      }
      i := i + 5;
    }
    assert b1 + b2 + b3 == reader[..12 + info + size];
    var crc := CrcBytes(b1 + b2 + b3);
    if |reader| < 16 + info + size {
      return None;
    }
    var behind := reader[12 + info + size..];
    CrcMatches(behind, Crc(b1 + b2 + b3));
    if behind[..4] != crc {
      return None;
    }
    return Some(table.(pids := pids));
  }

  lemma PmtFront(reader: seq<byte>)
    requires |reader| >= 12
    ensures forall pids :: PmtIn(reader[..12], pids) == PmtIn(reader, pids)
  {}

  lemma {:induction false} PidsSize(b: seq<byte>, i: nat, known: set<u16>)
    requires i <= |b| && Pids(b, i, known).Some?
    ensures 5 * |Pids(b, i, known).value| <= 5 * |known| + |b| - i
    decreases |b| - i
  {
    hide Get16;
    if i + 5 <= |b| {
      var pid := Get16(b[i + 1..]) % 0x2000;
      var info := Get16(b[i + 3..]) % 0x1000;
      if pid in known {
        PidsSize(b, i + 5, known);
      } else if i + 5 + info <= |b| {
        PidsSize(b, i + 5 + info, known + {pid});
      } else {
        assert Pids(b, i + 5 + info, known + {pid}) == Some(known + {pid});
      }
    }
  }

  lemma {:induction false} StreamEntryAt(pmt: Pmt, order: seq<u16>, k: nat)
    requires (forall p :: p in order ==> p in pmt.streams) && k < |order|
    ensures PmtEntries(pmt, order)[5 * k..5 * k + 5] == StreamEntry(order[k], pmt.streams[order[k]])
    decreases |order|
  {
    hide StreamEntry;
    var front := order[..|order| - 1];
    if k < |order| - 1 {
      StreamEntryAt(pmt, front, k);
      assert PmtEntries(pmt, order)[..5 * |front|] == PmtEntries(pmt, front);
      assert PmtEntries(pmt, order)[5 * k..5 * k + 5] == PmtEntries(pmt, front)[5 * k..5 * k + 5];
    }
  }

  lemma FiveAt(b: seq<byte>, i: nat, e: seq<byte>)
    requires i + 5 <= |b| && b[i..i + 5] == e
    ensures Get16(b[i + 1..]) == Get16(e[1..]) && Get16(b[i + 3..]) == Get16(e[3..])
  {
    assert b[i + 1] == b[i..i + 5][1] && b[i + 2] == b[i..i + 5][2] && b[i + 3] == b[i..i + 5][3] && b[i + 4] == b[i..i + 5][4];
  }

  lemma StreamRead(pmt: Pmt, order: seq<u16>, k: nat)
    requires (forall p :: p in order ==> p in pmt.streams) && k < |order|
    ensures
      var b := PmtEntries(pmt, order);
      Get16(b[5 * k + 1..]) % 0x2000 == order[k] % 0x2000 && Get16(b[5 * k + 3..]) % 0x1000 == 0
  {
    StreamEntryAt(pmt, order, k);
    hide PmtEntries;
    var e := StreamEntry(order[k], pmt.streams[order[k]]);
    FiveAt(PmtEntries(pmt, order), 5 * k, e);
    StreamEntryRead(order[k], pmt.streams[order[k]]);
    hide StreamEntry, Get16;
  }

  lemma StreamEntryRead(pid: u16, s: Stream)
    ensures Get16(StreamEntry(pid, s)[1..]) % 0x2000 == pid % 0x2000 && Get16(StreamEntry(pid, s)[3..]) % 0x1000 == 0
  {
    LowBits(pid);
    hide TypeOf;
    assert Get16(StreamEntry(pid, s)[3..]) == 0xf000;
  }

  function LowPids(order: seq<u16>): set<u16> {
    if order == [] then {} else {order[0] % 0x2000} + LowPids(order[1..])
  }

  /** The stream loop over the entries written finds the low 13 bits of every PID. */
  lemma {:induction false} PidsFound(pmt: Pmt, order: seq<u16>, k: nat, known: set<u16>)
    requires (forall p :: p in order ==> p in pmt.streams) && k <= |order|
    ensures Pids(PmtEntries(pmt, order), 5 * k, known) == Some(known + LowPids(order[k..]))
    decreases |order| - k
  {
    hide Get16, PmtEntries;
    if k < |order| {
      StreamRead(pmt, order, k);
      var pid := order[k] % 0x2000;
      var rest := order[k + 1..];
      assert order[k..][1..] == rest;
      PidsFound(pmt, order, k + 1, known + {pid});
      PidsFound(pmt, order, k + 1, known);
      Union(known, pid, LowPids(rest));
    } else {
      assert order[k..] == [] && known + {} == known;
    }
  }

  lemma Union(known: set<u16>, pid: u16, rest: set<u16>)
    ensures known + {pid} + rest == known + ({pid} + rest)
    ensures pid in known ==> known + rest == known + ({pid} + rest)
  {}

  lemma {:induction false} InLowPids(order: seq<u16>, x: u16)
    ensures x in LowPids(order) <==> exists j :: 0 <= j < |order| && order[j] % 0x2000 == x
  {
    if order != [] {
      InLowPids(order[1..], x);
      if exists j :: 0 <= j < |order| && order[j] % 0x2000 == x {
        var j :| 0 <= j < |order| && order[j] % 0x2000 == x;
        assert j > 0 ==> order[1..][j - 1] == order[j];
      }
      if exists j :: 0 <= j < |order[1..]| && order[1..][j] % 0x2000 == x {
        var j :| 0 <= j < |order[1..]| && order[1..][j] % 0x2000 == x;
        assert order[j + 1] == order[1..][j];
      }
    }
  }

  predicate Narrow(pids: set<u16>) {
    forall p :: p in pids ==> p < 0x2000
  }

  lemma LowPidsWhole(order: seq<u16>, keys: set<u16>)
    requires Visited(order, keys)
    ensures LowPids(order) == keys <==> Narrow(keys)
  {
    forall x
      ensures x in LowPids(order) ==> x < 0x2000
      ensures Narrow(keys) ==> (x in LowPids(order) <==> x in keys)
    {
      InLowPids(order, x);
      hide LowPids;
      if x in keys {
        VisitedAt(order, keys, x);
        var j :| 0 <= j < |order| && order[j] == x;
        assert x < 0x2000 ==> order[j] % 0x2000 == x;
      }
      if x in LowPids(order) {
        var j :| 0 <= j < |order| && order[j] % 0x2000 == x;
        assert order[j] in order && order[j] in keys;
      }
    }
  }

  lemma PidsWhole(pmt: Pmt, order: seq<u16>)
    requires Enumerates(order, pmt.streams)
    ensures Pids(PmtEntries(pmt, order), 0, {}).Some?
    ensures Pids(PmtEntries(pmt, order), 0, {}).value == pmt.streams.Keys <==> Narrow(pmt.streams.Keys)
  {
    VisitedIn(order, pmt.streams.Keys);
    PidsFound(pmt, order, 0, {});
    LowPidsWhole(order, pmt.streams.Keys);
    hide PmtEntries, Pids, LowPids, Narrow, Visited;
    assert order[0..] == order && {} + LowPids(order) == LowPids(order);
  }

  /** The fields of a table that its header can carry; descriptors are never written. */
  predicate PmtHeaderCarried(pmt: Pmt) {
    && pmt.tableID == 2 && pmt.sectionSyntaxIndicator == 1 && pmt.sectionLength < 0x100
    && pmt.versionNumber < 0x20 && pmt.currentNextIndicator < 2
    && pmt.sectionNumber == 0 && pmt.lastSectionNumber == 0
    && pmt.pcrPid < 0x2000 && pmt.programInfoLength < 0x100
  }

  predicate PmtCarried(pmt: Pmt) {
    && PmtHeaderCarried(pmt) && pmt.programInfoLength == 0
    && U16(pmt.sectionLength - 13) == 5 * |pmt.streams|
    && Narrow(pmt.streams.Keys)
  }

  function PmtFound(pmt: Pmt, pids: set<u16>): PmtRead {
    PmtRead(pmt.tableID, pmt.sectionSyntaxIndicator % 2, pmt.sectionLength % 0x100, pmt.programNumber,
            pmt.versionNumber % 0x20, pmt.currentNextIndicator % 2, pmt.sectionNumber, pmt.lastSectionNumber,
            pmt.pcrPid % 0x2000, pmt.programInfoLength % 0x100, pids)
  }

  lemma PmtFoundIs(pmt: Pmt, pids: set<u16>)
    ensures
      !PmtRefused(PmtFound(pmt, {})) && PmtFound(pmt, pids) == Summary(pmt)
      <==> PmtHeaderCarried(pmt) && pids == pmt.streams.Keys
  {}

  lemma PmtHeaderRead(pmt: Pmt, tail: seq<byte>, pids: set<u16>)
    ensures PmtIn(PmtHeader(pmt) + tail, pids) == PmtFound(pmt, pids)
  {
    LowBits(pmt.pcrPid);
    var b := PmtHeader(pmt) + tail;
    assert b[5] / 2 % 0x20 == pmt.versionNumber % 0x20 && b[5] % 2 == pmt.currentNextIndicator % 2;
    assert b[1] / 0x80 == pmt.sectionSyntaxIndicator % 2;
    assert Get16(b[8..]) == (0xe0 + pmt.pcrPid / 0x100 % 0x20) * 0x100 + pmt.pcrPid % 0x100;
  }

  lemma PmtFieldsRead(pmt: Pmt, order: seq<u16>, pids: set<u16>)
    requires forall k :: k in order ==> k in pmt.streams
    ensures
      var section := PmtSection(pmt, order);
      && PmtIn(section, pids) == PmtFound(pmt, pids)
      && section[2] == pmt.sectionLength % 0x100 && section[11] == pmt.programInfoLength % 0x100
  {
    var tail := PmtEntries(pmt, order) + Put32(Crc(PmtHeader(pmt) + PmtEntries(pmt, order)));
    PmtHeaderRead(pmt, tail, pids);
    hide PmtEntries, Crc, Put32;
    assert PmtSection(pmt, order) == PmtHeader(pmt) + tail;
  }

  /** The bytes of a written section behind its descriptors, and its checksum. */
  lemma PmtParts(pmt: Pmt, order: seq<u16>, info: nat, size: nat)
    requires (forall k :: k in order ==> k in pmt.streams) && info + size <= 5 * |order|
    ensures
      var section, entries := PmtSection(pmt, order), PmtEntries(pmt, order);
      && section[12 + info..12 + info + size] == entries[info..info + size]
      && (info + size == |entries| ==> Get32(section[12 + info + size..]) == Crc(section[..12 + info + size]))
  {
    var section, entries := PmtSection(pmt, order), PmtEntries(pmt, order);
    SectionParts(PmtHeader(pmt), entries, info + size);
    hide PmtHeader, PmtEntries, Crc, Get32, Put32, Checked;
    SubSlice(section, 12, info, size, |entries|);
    SubSlice(entries, 0, info, size, |entries|);
  }

  /** Parsing a written section finds the header's fields and whatever lies where its lengths point. */
  lemma PmtParsed(pmt: Pmt, order: seq<u16>, info: nat, size: nat)
    requires (forall k :: k in order ==> k in pmt.streams) && info + size <= 5 * |order|
    ensures
      var r := PmtBehind(PmtSection(pmt, order), info, size);
      var pids := Pids(PmtEntries(pmt, order)[info..info + size], 0, {});
      && (r.Some? ==> pids.Some? && !PmtRefused(PmtFound(pmt, {})) && r == Some(PmtFound(pmt, pids.value)))
      && (info + size == 5 * |order| && pids.Some? && !PmtRefused(PmtFound(pmt, {})) ==> r.Some?)
  {
    PmtFieldsRead(pmt, order, {});
    PmtParts(pmt, order, info, size);
    var pids := Pids(PmtEntries(pmt, order)[info..info + size], 0, {});
    PmtFieldsRead(pmt, order, if pids.Some? then pids.value else {});
    hide PmtSection, PmtEntries, Crc, Get32, Pids, PmtRefused, PmtIn, PmtFound;
  }

  /** The descriptor length that is read back, and the bytes left for the streams. */
  function InfoLength(pmt: Pmt): byte {
    pmt.programInfoLength % 0x100
  }

  function LoopLength(pmt: Pmt): u16 {
    U16(pmt.sectionLength % 0x100 - 9 - InfoLength(pmt) - 4)
  }

  lemma PmtLengths(pmt: Pmt, order: seq<u16>)
    requires forall k :: k in order ==> k in pmt.streams
    ensures
      var info: int, size: int := InfoLength(pmt), LoopLength(pmt);
      && ParsePmt(PmtSection(pmt, order)) == PmtBehind(PmtSection(pmt, order), info, size)
      && (info + size > 5 * |order| ==> ParsePmt(PmtSection(pmt, order)).None?)
  {
    PmtFieldsRead(pmt, order, {});
    var info: int, size: int := InfoLength(pmt), LoopLength(pmt);
    if info + size > 5 * |order| {
      Overrun(PmtSection(pmt, order), info, size);
    }
    hide PmtSection, U16, PmtBehind, PmtIn, PmtFound;
  }

  lemma PmtCarriedWhen(pmt: Pmt)
    ensures
      var info: int, size: int := InfoLength(pmt), LoopLength(pmt);
      PmtCarried(pmt) <==> PmtHeaderCarried(pmt) && info == 0 && size == 5 * |pmt.streams| && Narrow(pmt.streams.Keys)
  {
    hide Narrow;
  }

  lemma Overrun(reader: seq<byte>, info: nat, size: nat)
    requires 12 <= |reader| < 16 + info + size
    ensures PmtBehind(reader, info, size).None?
  {}

  lemma SubSlice(b: seq<byte>, k: nat, info: nat, size: nat, n: nat)
    requires k + n <= |b| && info + size <= n
    ensures b[k + info..k + info + size] == b[k..k + info + size][info..]
  {}

  /**
    A written program map table parses back to its fields and its set of PIDs, whatever order its map
    was visited in, if and only if its bytes can carry them.
   */
  lemma PmtRoundTrip(pmt: Pmt, order: seq<u16>)
    requires Enumerates(order, pmt.streams)
    ensures ParsePmt(PmtSection(pmt, order)) == Some(Summary(pmt)) <==> PmtCarried(pmt)
  {
    VisitedIn(order, pmt.streams.Keys);
    hide *;
    PmtLengths(pmt, order);
    PmtCarriedWhen(pmt);
    ParsedWithin(pmt, order, InfoLength(pmt), LoopLength(pmt));
  }

  /** The theorem once the two lengths are known. */
  lemma ParsedWithin(pmt: Pmt, order: seq<u16>, info: nat, size: nat)
    requires Enumerates(order, pmt.streams)
    requires info + size > 5 * |order| ==> PmtBehind(PmtSection(pmt, order), info, size).None?
    ensures
      PmtBehind(PmtSection(pmt, order), info, size) == Some(Summary(pmt))
      <==> PmtHeaderCarried(pmt) && info == 0 && size == 5 * |pmt.streams| && Narrow(pmt.streams.Keys)
  {
    VisitedIn(order, pmt.streams.Keys);
    hide *;
    EnumerationSize(order, pmt.streams);
    if info + size <= 5 * |order| {
      PmtParsed(pmt, order, info, size);
      ClaimedPids(pmt, order, info, size);
    }
  }

  /** What the stream loop finds in the part of the entries that the lengths claim. */
  lemma ClaimedPids(pmt: Pmt, order: seq<u16>, info: nat, size: nat)
    requires Enumerates(order, pmt.streams) && info + size <= 5 * |order|
    ensures
      var pids := Pids(PmtEntries(pmt, order)[info..info + size], 0, {});
      var whole := info == 0 && size == 5 * |pmt.streams|;
      && (whole ==> pids.Some?)
      && (pids.Some? && !PmtRefused(PmtFound(pmt, {})) && PmtFound(pmt, pids.value) == Summary(pmt)
          <==> whole && PmtHeaderCarried(pmt) && Narrow(pmt.streams.Keys))
  {
    var entries := PmtEntries(pmt, order);
    EnumerationSize(order, pmt.streams);
    assert |pmt.streams.Keys| == |pmt.streams|;
    hide *;
    var pids := Pids(entries[info..info + size], 0, {});
    if pids.Some? {
      PmtFoundIs(pmt, pids.value);
      PidsSize(entries[info..info + size], 0, {});
    }
    if info == 0 && size == 5 * |order| {
      assert entries[info..info + size] == entries;
      PidsWhole(pmt, order);
    }
  }
}
