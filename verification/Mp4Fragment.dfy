/**
  fMP4 fragments: the box writers of libmp4/box.go and `BuildMediaSegment` of
  libmp4/media_segment.go, and a player for them after ISO/IEC 14496-12 sections 4.2, 8.8.5 to
  8.8.8 and 8.8.12.
 */
module Mp4Fragment {
  import opened Bytes
  import opened Wrappers

  type i32 = x: int | -0x8000_0000 <= x < 0x8000_0000

  const MOOF: seq<byte> := [0x6d, 0x6f, 0x6f, 0x66]
  const MFHD: seq<byte> := [0x6d, 0x66, 0x68, 0x64]
  const TRAF: seq<byte> := [0x74, 0x72, 0x61, 0x66]
  const TFHD: seq<byte> := [0x74, 0x66, 0x68, 0x64]
  const TFDT: seq<byte> := [0x74, 0x66, 0x64, 0x74]
  const TRUN: seq<byte> := [0x74, 0x72, 0x75, 0x6e]
  const MDAT: seq<byte> := [0x6d, 0x64, 0x61, 0x74]

  datatype Sample = Sample(duration: u32, size: u32, isKey: bool, cts: i32, data: seq<byte>)

  datatype Params = Params(trackID: u32, sequenceNumber: u32, baseDecodeTime: u64, samples: seq<Sample>)

  // ----- Boxes -----

  /** `Box.Bytes`. */
  function BoxBytes(kind: seq<byte>, body: seq<byte>): (b: seq<byte>)
    ensures |b| == 4 + |kind| + |body|
  {
    Put32(U32(8 + |body|)) + kind + body
  }

  function FullBoxHeader(version: byte, flags: u32): (b: seq<byte>)
    ensures |b| == 4
  {
    [version, U8(flags / 0x100 / 0x100), U8(flags / 0x100), U8(flags)]
  }

  function Put64(v: u64): (b: seq<byte>)
    ensures |b| == 8
  {
    Put32(v / 0x1_0000_0000) + Put32(v % 0x1_0000_0000)
  }

  function Joined(parts: seq<seq<byte>>): seq<byte> {
    if parts == [] then [] else parts[0] + Joined(parts[1..])
  }

  lemma JoinedTwo(a: seq<byte>, b: seq<byte>)
    ensures Joined([a, b]) == a + b
  {
    assert [a, b][1..] == [b];
    assert Joined([b]) == b;
  }

  method Container(kind: seq<byte>, children: seq<seq<byte>>) returns (out: seq<byte>)
    ensures out == BoxBytes(kind, Joined(children))
  {
    var body: seq<byte> := [];
    var i := 0;
    while i < |children|
      invariant 0 <= i <= |children|
      invariant body + Joined(children[i..]) == Joined(children)
    {
      assert children[i..][1..] == children[i + 1..];
      body := body + children[i];
      i := i + 1;
    }
    return BoxBytes(kind, body);
  }

  // ----- The fragment -----

  function SampleFlags(isKey: bool): u32 { if isKey then 0x0200_0000 else 0x0101_0000 }

  /** The bits of an int32 as a uint32. */
  function Unsigned(v: i32): u32 { U32(v) }

  function Entry(s: Sample): (b: seq<byte>)
    ensures |b| == 16
  {
    Put32(s.duration) + (Put32(s.size) + (Put32(SampleFlags(s.isKey)) + Put32(Unsigned(s.cts))))
  }

  function Entries(samples: seq<Sample>): (b: seq<byte>)
    ensures |b| == 16 * |samples|
  {
    if samples == [] then [] else Entry(samples[0]) + Entries(samples[1..])
  }

  const RUN_FLAGS: u32 := 0x000f01

  function RunBody(samples: seq<Sample>, dataOffset: u32): (b: seq<byte>)
    ensures |b| == 12 + 16 * |samples|
  {
    FullBoxHeader(1, RUN_FLAGS) + (Put32(U32(|samples|)) + (Put32(dataOffset) + Entries(samples)))
  }

  function HeaderBody(trackID: u32): seq<byte> { FullBoxHeader(0, 0x020000) + Put32(trackID) }

  function TimeBody(base: u64): seq<byte> { FullBoxHeader(1, 0) + Put64(base) }

  function SequenceBody(n: u32): seq<byte> { FullBoxHeader(0, 0) + Put32(n) }

  function TrafBody(p: Params, dataOffset: u32): seq<byte> {
    BoxBytes(TFHD, HeaderBody(p.trackID))
    + (BoxBytes(TFDT, TimeBody(p.baseDecodeTime)) + BoxBytes(TRUN, RunBody(p.samples, dataOffset)))
  }

  function MoofBody(p: Params, dataOffset: u32): seq<byte> {
    BoxBytes(MFHD, SequenceBody(p.sequenceNumber)) + BoxBytes(TRAF, TrafBody(p, dataOffset))
  }

  function Moof(p: Params, dataOffset: u32): seq<byte> { BoxBytes(MOOF, MoofBody(p, dataOffset)) }

  function AllData(samples: seq<Sample>): seq<byte> {
    if samples == [] then [] else samples[0].data + AllData(samples[1..])
  }

  /** A moof whose run points behind it at the data, then the data. */
  function Fragment(p: Params): seq<byte> {
    if p.samples == [] then []
    else Moof(p, U32(|Moof(p, 0)| + 8)) + BoxBytes(MDAT, AllData(p.samples))
  }

  lemma MoofLengthFixed(p: Params, a: u32, b: u32)
    ensures |Moof(p, a)| == |Moof(p, b)|
  {}

  lemma RunParts(samples: seq<Sample>, dataOffset: u32)
    ensures
      FullBoxHeader(1, RUN_FLAGS) + Put32(U32(|samples|)) + Put32(dataOffset) + Entries(samples)
      == RunBody(samples, dataOffset)
  {
    hide FullBoxHeader, Put32, Entries, U32;
    var h, n, at := FullBoxHeader(1, RUN_FLAGS), Put32(U32(|samples|)), Put32(dataOffset);
    Regroup(h + n, at, Entries(samples));
    Regroup(h, n, at + Entries(samples));
  }

  method Trun(samples: seq<Sample>, dataOffset: i32) returns (out: seq<byte>)
    ensures out == BoxBytes(TRUN, RunBody(samples, Unsigned(dataOffset)))
  {
    hide FullBoxHeader, Put32, U32, RunBody, BoxBytes, Unsigned;
    var body := FullBoxHeader(1, 0x01 + 0x100 + 0x200 + 0x400 + 0x800);
    body := body + Put32(U32(|samples|));
    body := body + Put32(Unsigned(dataOffset));
    ghost var front := body;
    RunParts(samples, Unsigned(dataOffset));
    var i := 0;
    assert samples[0..] == samples;
    while i < |samples|
      invariant 0 <= i <= |samples|
      invariant body + Entries(samples[i..]) == front + Entries(samples)
    {
      var s := samples[i];
      ghost var before := body;
      assert samples[i..][1..] == samples[i + 1..];
      body := body + Put32(s.duration);
      body := body + Put32(s.size);
      body := body + Put32(SampleFlags(s.isKey));
      body := body + Put32(Unsigned(s.cts));
      EntryParts(before, s);
      i := i + 1;
    }
    assert body + Entries(samples[i..]) == body;
    return BoxBytes(TRUN, body);
  }

  lemma EntryParts(before: seq<byte>, s: Sample)
    ensures
      before + Put32(s.duration) + Put32(s.size) + Put32(SampleFlags(s.isKey)) + Put32(Unsigned(s.cts)) == before + Entry(s)
  {
    hide Put32, Unsigned, SampleFlags;
  }

  method BuildTraf(p: Params, dataOffset: i32) returns (out: seq<byte>)
    ensures out == BoxBytes(TRAF, TrafBody(p, Unsigned(dataOffset)))
  {
    hide BoxBytes, RunBody, HeaderBody, TimeBody;
    var run := Trun(p.samples, dataOffset);
    var parts := [BoxBytes(TFHD, HeaderBody(p.trackID)), BoxBytes(TFDT, TimeBody(p.baseDecodeTime)), run];
    out := Container(TRAF, parts);
    JoinedTwo(parts[1], parts[2]);
    assert parts[1..] == [parts[1], parts[2]];
  }

  method BuildMoof(p: Params, dataOffset: i32) returns (out: seq<byte>)
    ensures out == Moof(p, Unsigned(dataOffset))
  {
    hide BoxBytes, TrafBody, SequenceBody;
    var traf := BuildTraf(p, dataOffset);
    var parts := [BoxBytes(MFHD, SequenceBody(p.sequenceNumber)), traf];
    out := Container(MOOF, parts);
    JoinedTwo(parts[0], parts[1]);
  }

  /** int32(n): the low 32 bits, as a signed number. */
  function Int32(n: int): i32 {
    var low := n % 0x1_0000_0000;
    if low < 0x8000_0000 then low else low - 0x1_0000_0000
  }

  lemma UnsignedInt32(n: nat)
    ensures Unsigned(Int32(n)) == U32(n)
  {}

  method BuildMediaSegment(p: Params) returns (out: seq<byte>)
    ensures out == Fragment(p)
  {
    hide Moof, BoxBytes, U32, Unsigned, Int32;
    if |p.samples| == 0 {
      return [];
    }
    var mdatBody: seq<byte> := [];
    var i := 0;
    assert p.samples[0..] == p.samples;
    while i < |p.samples|
      invariant 0 <= i <= |p.samples|
      invariant mdatBody + AllData(p.samples[i..]) == AllData(p.samples)
    {
      assert p.samples[i..][1..] == p.samples[i + 1..];
      mdatBody := mdatBody + p.samples[i].data;
      i := i + 1;
    }
    assert mdatBody == AllData(p.samples);
    var mdat := BoxBytes(MDAT, mdatBody);
    var moof := BuildMoof(p, 0);
    assert Unsigned(0) == 0 by { UnsignedZero(); }
    var dataOffset := |moof| + 8;
    UnsignedInt32(dataOffset);
    moof := BuildMoof(p, Int32(dataOffset));
    return moof + mdat;
  }

  lemma UnsignedZero()
    ensures Unsigned(0) == 0
  {}

  // ----- A player -----

  datatype Box = Box(kind: seq<byte>, body: seq<byte>)

  /** The type of a box, by its four letters. */
  function Name(letters: string): (kind: seq<byte>)
    requires forall i :: 0 <= i < |letters| ==> letters[i] < 128 as char
    ensures |kind| == |letters|
  {
    seq(|letters|, i requires 0 <= i < |letters| => letters[i] as int)
  }

  /** The boxes a body is made of, when it is made of boxes. */
  function Boxes(b: seq<byte>): Option<seq<Box>>
    decreases |b|
  {
    if b == [] then Some([])
    else if |b| < 8 then None
    else
      var size := Get32(b);
      if size < 8 || size > |b| then None
      else
        var rest := Boxes(b[size..]);
        if rest.None? then None else Some([Box(b[4..8], b[8..size])] + rest.value)
  }

  function Child(bs: seq<Box>, kind: seq<byte>): Option<seq<byte>> {
    if bs == [] then None else if bs[0].kind == kind then Some(bs[0].body) else Child(bs[1..], kind)
  }

  /** Where the first box of a kind starts. */
  function Origin(bs: seq<Box>, kind: seq<byte>): nat {
    if bs == [] || bs[0].kind == kind then 0 else 8 + |bs[0].body| + Origin(bs[1..], kind)
  }

  /** What is presented: decoding time, duration, composition offset, sync sample, what it depends on, bytes. */
  datatype Frame = Frame(dts: nat, duration: u32, cts: i32, sync: bool, dependsOn: nat, data: seq<byte>)

  datatype Presentation = Presentation(trackID: u32, sequenceNumber: u32, frames: seq<Frame>)

  function Get64(b: seq<byte>): u64
    requires |b| >= 8
  {
    Get32(b) * 0x1_0000_0000 + Get32(b[4..])
  }

  /** No sample flags but what the sample depends on and whether it is a sync sample. */
  predicate Plain(flags: u32) {
    flags % 0x1_0000 == 0 && flags / 0x2_0000 % 0x80 == 0 && flags / 0x400_0000 == 0
  }

  /** A run of samples, the first of them at a byte offset of the file and a decoding time. */
  function Frames(file: seq<byte>, entries: seq<byte>, count: nat, at: nat, dts: nat): Option<seq<Frame>>
    decreases count
  {
    if count == 0 then Some([])
    else if |entries| < 16 then None
    else
      var size := Get32(entries[4..]);
      if at + size > |file| then None
      else
        var flags, duration := Get32(entries[8..]), Get32(entries);
        var rest := Frames(file, entries[16..], count - 1, at + size, dts + duration);
        if rest.None? || !Plain(flags) then None
        else
          Some([Frame(dts, duration, Int32(Get32(entries[12..])), flags / 0x1_0000 % 2 == 0, flags / 0x100_0000 % 4,
                      file[at..at + size])] + rest.value)
  }

  /** A track run: relative to the moof box, every field given per sample. */
  function PlayRun(file: seq<byte>, run: seq<byte>, origin: nat, dts: nat): Option<seq<Frame>> {
    if |run| < 12 || run[..4] != [1, 0x00, 0x0f, 0x01] then None
    else
      var at := origin + Int32(Get32(run[8..]));
      if at < 0 then None else Frames(file, run[12..], Get32(run[4..]), at, dts)
  }

  function PlayTraf(file: seq<byte>, parts: seq<Box>, origin: nat, sequenceNumber: u32): Option<Presentation> {
    var tfhd, tfdt, trun := Child(parts, Name("tfhd")), Child(parts, Name("tfdt")), Child(parts, Name("trun"));
    if tfhd.None? || tfdt.None? || trun.None? then None
    else if |tfhd.value| != 8 || tfhd.value[..4] != [0, 0x02, 0x00, 0x00] then None
    else if |tfdt.value| != 12 || tfdt.value[..4] != [1, 0, 0, 0] then None
    else
      var frames := PlayRun(file, trun.value, origin, Get64(tfdt.value[4..]));
      if frames.None? then None else Some(Presentation(Get32(tfhd.value[4..]), sequenceNumber, frames.value))
  }

  /** Every box is walked whole: sizes that do not add up at any level play nothing. */
  function Play(file: seq<byte>): Option<Presentation> {
    var top := Boxes(file);
    if top.None? then None
    else
      var moof, mdat := Child(top.value, Name("moof")), Child(top.value, Name("mdat"));
      if moof.None? || mdat.None? then None
      else
        var parts := Boxes(moof.value);
        if parts.None? then None
        else
          var mfhd, traf := Child(parts.value, Name("mfhd")), Child(parts.value, Name("traf"));
          if mfhd.None? || traf.None? || |mfhd.value| != 8 || mfhd.value[..4] != [0, 0, 0, 0] then None
          else
            var inner := Boxes(traf.value);
            if inner.None? then None
            else PlayTraf(file, inner.value, Origin(top.value, Name("moof")), Get32(mfhd.value[4..]))
  }

  // ----- The player recovers the samples -----

  /** A sample shown at a time; a key frame depends on no other (2), any other frame does (1). */
  function Shown(s: Sample, dts: nat): Frame {
    Frame(dts, s.duration, s.cts, s.isKey, if s.isKey then 2 else 1, s.data)
  }

  function Presented(samples: seq<Sample>, dts: nat): seq<Frame> {
    if samples == [] then []
    else
      var s := samples[0];
      [Shown(s, dts)] + Presented(samples[1..], dts + s.duration)
  }

  predicate Sized(samples: seq<Sample>) {
    forall i :: 0 <= i < |samples| ==> samples[i].size == |samples[i].data|
  }

  /** Sizes and the patched offset within their fields. */
  predicate InRange(p: Params) {
    && p.samples != []
    && Sized(p.samples)
    && 8 + |AllData(p.samples)| < 0x1_0000_0000
    && |Moof(p, 0)| + 8 < 0x8000_0000
  }

  lemma BoxRead(kind: seq<byte>, body: seq<byte>, tail: seq<byte>)
    requires |kind| == 4 && 8 + |body| < 0x1_0000_0000
    ensures
      var rest := Boxes(tail);
      Boxes(BoxBytes(kind, body) + tail) == if rest.None? then None else Some([Box(kind, body)] + rest.value)
  {
    hide Get32, Put32;
    var size := 8 + |body|;
    assert U32(size) == size;
    var b := BoxBytes(kind, body) + tail;
    BoxSlices(Put32(size), kind, body, tail);
    assert b == Put32(size) + (kind + body + tail);
    GetPut32(size, kind + body + tail);
  }

  lemma BoxSlices(front: seq<byte>, kind: seq<byte>, body: seq<byte>, tail: seq<byte>)
    requires |front| == 4 && |kind| == 4
    ensures
      var b := front + kind + body + tail;
      b[4..8] == kind && b[8..8 + |body|] == body && b[8 + |body|..] == tail && b == front + (kind + body + tail)
  {}

  lemma EntryRead(s: Sample, tail: seq<byte>)
    ensures
      var b := Entry(s) + tail;
      && Get32(b) == s.duration && Get32(b[4..]) == s.size
      && (Get32(b[8..]) / 0x1_0000 % 2 == 0 <==> s.isKey)
      && Get32(b[8..]) / 0x100_0000 % 4 == (if s.isKey then 2 else 1) && Plain(Get32(b[8..]))
      && Int32(Get32(b[12..])) == s.cts
      && b[16..] == tail
  {
    hide Put32, Get32;
    var b := Entry(s) + tail;
    var fourth := Put32(Unsigned(s.cts)) + tail;
    var third := Put32(SampleFlags(s.isKey)) + fourth;
    var second := Put32(s.size) + third;
    assert b == Put32(s.duration) + second;
    assert b[4..] == second && b[8..] == third && b[12..] == fourth;
    GetPut32(s.duration, second);
    GetPut32(s.size, third);
    GetPut32(SampleFlags(s.isKey), fourth);
    GetPut32(Unsigned(s.cts), tail);
  }

  lemma {:induction false} FramesRead(file: seq<byte>, samples: seq<Sample>, tail: seq<byte>, before: seq<byte>, dts: nat)
    requires Sized(samples)
    requires file == before + AllData(samples)
    ensures Frames(file, Entries(samples) + tail, |samples|, |before|, dts) == Some(Presented(samples, dts))
    decreases |samples|
  {
    hide *;
    if samples == [] {
      NoFrames(file, Entries(samples) + tail, |before|, dts);
    } else {
      var s, later := samples[0], samples[1..];
      var entries := Entries(later) + tail;
      FirstSample(samples, dts);
      EntryFrame(file, s, entries, |samples|, |before|, dts, before, AllData(later));
      Regroup(before, s.data, AllData(later));
      FramesRead(file, later, tail, before + s.data, dts + s.duration);
      Regroup(Entry(s), Entries(later), tail);
    }
  }

  lemma NoFrames(file: seq<byte>, entries: seq<byte>, at: nat, dts: nat)
    ensures Frames(file, entries, 0, at, dts) == Some(Presented([], dts))
  {}

  lemma FirstSample(samples: seq<Sample>, dts: nat)
    requires samples != [] && Sized(samples)
    ensures
      var s, later := samples[0], samples[1..];
      && Sized(later) && s.size == |s.data|
      && AllData(samples) == s.data + AllData(later) && Entries(samples) == Entry(s) + Entries(later)
      && Presented(samples, dts) == [Shown(s, dts)] + Presented(later, dts + s.duration)
  {
    hide Entry;
  }

  /** What one entry makes of the frames. */
  lemma EntryFrame(file: seq<byte>, s: Sample, rest: seq<byte>, count: nat, offset: nat, dts: nat, before: seq<byte>, after: seq<byte>)
    requires count > 0 && s.size == |s.data| && offset == |before|
    requires file == before + (s.data + after)
    ensures
      var frames := Frames(file, rest, count - 1, offset + |s.data|, dts + s.duration);
      Frames(file, Entry(s) + rest, count, offset, dts)
      == if frames.None? then None else Some([Shown(s, dts)] + frames.value)
  {
    hide Get32, Int32, Entry;
    EntryRead(s, rest);
    assert file[|before|..|before| + |s.data|] == s.data;
  }

  lemma RunRead(file: seq<byte>, p: Params, moof: seq<byte>, dts: nat)
    requires InRange(p)
    requires |p.samples| < 0x1_0000_0000 && |moof| + 8 < 0x8000_0000
    requires file == moof + BoxBytes(MDAT, AllData(p.samples))
    ensures PlayRun(file, RunBody(p.samples, |moof| + 8), 0, dts) == Some(Presented(p.samples, dts))
  {
    hide Get32, Put32, FullBoxHeader, Frames, Moof;
    var body := RunBody(p.samples, |moof| + 8);
    var entries := Entries(p.samples);
    var third := Put32(|moof| + 8) + entries;
    assert U32(|p.samples|) == |p.samples|;
    assert body[..4] == FullBoxHeader(1, RUN_FLAGS) == [1, 0x00, 0x0f, 0x01] by { Versions(); }
    assert body[4..] == Put32(|p.samples|) + third && body[8..] == third && body[12..] == entries;
    GetPut32(|p.samples|, third);
    GetPut32(|moof| + 8, entries);
    var before := moof + (Put32(U32(8 + |AllData(p.samples)|)) + MDAT);
    assert file == before + AllData(p.samples);
    assert entries + [] == entries;
    FramesRead(file, p.samples, [], before, dts);
  }

  lemma TwoBoxes(a: Box, b: Box)
    requires |a.kind| == 4 && 8 + |a.body| < 0x1_0000_0000
    requires |b.kind| == 4 && 8 + |b.body| < 0x1_0000_0000
    ensures Boxes(BoxBytes(a.kind, a.body) + BoxBytes(b.kind, b.body)) == Some([a, b])
  {
    hide BoxBytes;
    BoxRead(b.kind, b.body, []);
    assert BoxBytes(b.kind, b.body) + [] == BoxBytes(b.kind, b.body);
    BoxRead(a.kind, a.body, BoxBytes(b.kind, b.body));
    assert [b] + [] == [b] && [a] + [b] == [a, b];
  }

  lemma ThreeBoxes(a: Box, b: Box, c: Box)
    requires |a.kind| == 4 && 8 + |a.body| < 0x1_0000_0000
    requires |b.kind| == 4 && 8 + |b.body| < 0x1_0000_0000
    requires |c.kind| == 4 && 8 + |c.body| < 0x1_0000_0000
    ensures
      Boxes(BoxBytes(a.kind, a.body) + (BoxBytes(b.kind, b.body) + BoxBytes(c.kind, c.body))) == Some([a, b, c])
  {
    hide BoxBytes;
    TwoBoxes(b, c);
    BoxRead(a.kind, a.body, BoxBytes(b.kind, b.body) + BoxBytes(c.kind, c.body));
    assert [a] + [b, c] == [a, b, c];
  }

  lemma Lengths(p: Params, dataOffset: u32)
    ensures
      && |TrafBody(p, dataOffset)| == 56 + 16 * |p.samples|
      && |MoofBody(p, dataOffset)| == 80 + 16 * |p.samples|
      && |Moof(p, dataOffset)| == 88 + 16 * |p.samples|
  {}

  lemma Children(a: Box, b: Box, c: Box)
    requires a.kind != b.kind && a.kind != c.kind && b.kind != c.kind
    ensures Child([a, b, c], a.kind) == Some(a.body) && Child([a, b, c], b.kind) == Some(b.body)
    ensures Child([a, b, c], c.kind) == Some(c.body)
    ensures Child([a, b], a.kind) == Some(a.body) && Child([a, b], b.kind) == Some(b.body)
    ensures Origin([a, b], a.kind) == 0
  {
    assert [a, b, c][1..] == [b, c] && [b, c][1..] == [c] && [a, b][1..] == [b];
    assert Child([c], c.kind) == Some(c.body);
  }

  lemma HeaderBodies(p: Params)
    ensures
      && |HeaderBody(p.trackID)| == 8 && HeaderBody(p.trackID)[..4] == [0, 0x02, 0x00, 0x00]
      && Get32(HeaderBody(p.trackID)[4..]) == p.trackID
      && |TimeBody(p.baseDecodeTime)| == 12 && TimeBody(p.baseDecodeTime)[..4] == [1, 0, 0, 0]
      && Get64(TimeBody(p.baseDecodeTime)[4..]) == p.baseDecodeTime
      && |SequenceBody(p.sequenceNumber)| == 8 && SequenceBody(p.sequenceNumber)[..4] == [0, 0, 0, 0]
      && Get32(SequenceBody(p.sequenceNumber)[4..]) == p.sequenceNumber
  {
    Versions();
    hide Put32, Get32, FullBoxHeader;
    var high: u32, low: u32 := p.baseDecodeTime / 0x1_0000_0000, p.baseDecodeTime % 0x1_0000_0000;
    GetPut32(p.trackID, []);
    GetPut32(p.sequenceNumber, []);
    GetPut32(high, Put32(low));
    GetPut32(low, []);
    assert HeaderBody(p.trackID)[4..] == Put32(p.trackID) + [];
    assert SequenceBody(p.sequenceNumber)[4..] == Put32(p.sequenceNumber) + [];
    assert TimeBody(p.baseDecodeTime)[4..] == Put32(high) + Put32(low);
    assert (Put32(high) + Put32(low))[4..] == Put32(low) + [];
  }

  /** Version and flags of the full boxes: 64-bit times, offsets from the moof box, every field of a run. */
  lemma Versions()
    ensures FullBoxHeader(0, 0) == [0, 0, 0, 0] && FullBoxHeader(1, 0) == [1, 0, 0, 0]
    ensures FullBoxHeader(0, 0x020000) == [0, 0x02, 0x00, 0x00] && FullBoxHeader(1, RUN_FLAGS) == [1, 0x00, 0x0f, 0x01]
  {}

  lemma Letters()
    ensures MOOF == Name("moof") && MFHD == Name("mfhd") && TRAF == Name("traf") && MDAT == Name("mdat")
    ensures TFHD == Name("tfhd") && TFDT == Name("tfdt") && TRUN == Name("trun")
  {}

  lemma Kinds()
    ensures MOOF != MDAT && MFHD != TRAF && TFHD != TFDT && TFHD != TRUN && TFDT != TRUN
  {
    assert MOOF[1] != MDAT[1] && MFHD[0] != TRAF[0];
    assert TFHD[2] != TFDT[2] && TFHD[1] != TRUN[1] && TFDT[1] != TRUN[1];
  }

  function TopBoxes(p: Params, dataOffset: u32): seq<Box> {
    [Box(MOOF, MoofBody(p, dataOffset)), Box(MDAT, AllData(p.samples))]
  }

  function MoofBoxes(p: Params, dataOffset: u32): seq<Box> {
    [Box(MFHD, SequenceBody(p.sequenceNumber)), Box(TRAF, TrafBody(p, dataOffset))]
  }

  function TrafBoxes(p: Params, dataOffset: u32): seq<Box> {
    [Box(TFHD, HeaderBody(p.trackID)), Box(TFDT, TimeBody(p.baseDecodeTime)), Box(TRUN, RunBody(p.samples, dataOffset))]
  }

  /** Every container's size is 8 plus its children: the walk at each level ends at the end. */
  lemma FragmentTiled(p: Params)
    requires InRange(p)
    ensures
      var dataOffset := |Moof(p, 0)| + 8;
      && Boxes(Fragment(p)) == Some(TopBoxes(p, dataOffset))
      && Boxes(MoofBody(p, dataOffset)) == Some(MoofBoxes(p, dataOffset))
      && Boxes(TrafBody(p, dataOffset)) == Some(TrafBoxes(p, dataOffset))
      && |Moof(p, dataOffset)| + 8 == dataOffset
  {
    Lengths(p, 0);
    var dataOffset := |Moof(p, 0)| + 8;
    Lengths(p, dataOffset);
    HeaderBodies(p);
    hide MoofBody, TrafBody, RunBody, HeaderBody, TimeBody, SequenceBody, AllData;
    TwoBoxes(TopBoxes(p, dataOffset)[0], TopBoxes(p, dataOffset)[1]);
    TwoBoxes(MoofBoxes(p, dataOffset)[0], MoofBoxes(p, dataOffset)[1]);
    ThreeBoxes(TrafBoxes(p, dataOffset)[0], TrafBoxes(p, dataOffset)[1], TrafBoxes(p, dataOffset)[2]);
    BodiesAre(p, dataOffset);
  }

  lemma BodiesAre(p: Params, dataOffset: u32)
    requires InRange(p) && dataOffset == |Moof(p, 0)| + 8
    ensures Fragment(p) == BoxBytes(MOOF, MoofBody(p, dataOffset)) + BoxBytes(MDAT, AllData(p.samples))
    ensures
      MoofBody(p, dataOffset)
      == BoxBytes(MFHD, SequenceBody(p.sequenceNumber)) + BoxBytes(TRAF, TrafBody(p, dataOffset))
    ensures
      TrafBody(p, dataOffset)
      == BoxBytes(TFHD, HeaderBody(p.trackID))
         + (BoxBytes(TFDT, TimeBody(p.baseDecodeTime)) + BoxBytes(TRUN, RunBody(p.samples, dataOffset)))
  {
    hide BoxBytes, RunBody, HeaderBody, TimeBody, SequenceBody;
  }

  /**
    A player that walks the fragment recovers the track, the sequence number, and of every sample
    its decoding time, composition offset, sync flag and bytes.
   */
  lemma FragmentPlays(p: Params)
    requires InRange(p)
    ensures
      Play(Fragment(p)) == Some(Presentation(p.trackID, p.sequenceNumber, Presented(p.samples, p.baseDecodeTime)))
  {
    Lengths(p, 0);
    hide *;
    var dataOffset := |Moof(p, 0)| + 8;
    HeaderBodies(p);
    FragmentTiled(p);
    ChildrenFound(p, dataOffset);
    TrafPlays(p, dataOffset);
    PlayIs(Fragment(p), TopBoxes(p, dataOffset), MoofBody(p, dataOffset), MoofBoxes(p, dataOffset),
           SequenceBody(p.sequenceNumber), TrafBody(p, dataOffset), TrafBoxes(p, dataOffset));
  }

  lemma PlayIs(file: seq<byte>, top: seq<Box>, moof: seq<byte>, parts: seq<Box>, mfhd: seq<byte>, traf: seq<byte>, inner: seq<Box>)
    requires Boxes(file) == Some(top) && Child(top, MOOF) == Some(moof) && Child(top, MDAT).Some?
    requires Boxes(moof) == Some(parts) && Child(parts, MFHD) == Some(mfhd) && Child(parts, TRAF) == Some(traf)
    requires |mfhd| == 8 && mfhd[..4] == [0, 0, 0, 0] && Boxes(traf) == Some(inner)
    ensures Play(file) == PlayTraf(file, inner, Origin(top, MOOF), Get32(mfhd[4..]))
  {
    Letters();
    hide Boxes, Child, Origin, PlayTraf, Get32, Name;
  }

  lemma ChildrenFound(p: Params, dataOffset: u32)
    ensures Child(TopBoxes(p, dataOffset), MOOF) == Some(MoofBody(p, dataOffset)) && Origin(TopBoxes(p, dataOffset), MOOF) == 0
    ensures Child(TopBoxes(p, dataOffset), MDAT) == Some(AllData(p.samples))
    ensures Child(MoofBoxes(p, dataOffset), MFHD) == Some(SequenceBody(p.sequenceNumber))
    ensures Child(MoofBoxes(p, dataOffset), TRAF) == Some(TrafBody(p, dataOffset))
    ensures Child(TrafBoxes(p, dataOffset), TFHD) == Some(HeaderBody(p.trackID))
    ensures Child(TrafBoxes(p, dataOffset), TFDT) == Some(TimeBody(p.baseDecodeTime))
    ensures Child(TrafBoxes(p, dataOffset), TRUN) == Some(RunBody(p.samples, dataOffset))
  {
    Kinds();
    hide Child, Origin, MoofBody, SequenceBody, TrafBody, HeaderBody, TimeBody, RunBody, AllData;
    var top, parts, inner := TopBoxes(p, dataOffset), MoofBoxes(p, dataOffset), TrafBoxes(p, dataOffset);
    Children(top[0], top[1], Box([], []));
    Children(parts[0], parts[1], Box([], []));
    Children(inner[0], inner[1], inner[2]);
  }

  lemma TrafIs(file: seq<byte>, parts: seq<Box>, tfhd: seq<byte>, tfdt: seq<byte>, run: seq<byte>, frames: seq<Frame>, n: u32)
    requires Child(parts, TFHD) == Some(tfhd) && |tfhd| == 8 && tfhd[..4] == [0, 0x02, 0x00, 0x00]
    requires Child(parts, TFDT) == Some(tfdt) && |tfdt| == 12 && tfdt[..4] == [1, 0, 0, 0]
    requires Child(parts, TRUN) == Some(run) && PlayRun(file, run, 0, Get64(tfdt[4..])) == Some(frames)
    ensures PlayTraf(file, parts, 0, n) == Some(Presentation(Get32(tfhd[4..]), n, frames))
  {
    Letters();
    hide Name, Child, PlayRun, Get32, Get64;
  }

  lemma TrafPlays(p: Params, dataOffset: u32)
    requires InRange(p) && dataOffset == |Moof(p, 0)| + 8
    ensures
      PlayTraf(Fragment(p), TrafBoxes(p, dataOffset), 0, p.sequenceNumber)
      == Some(Presentation(p.trackID, p.sequenceNumber, Presented(p.samples, p.baseDecodeTime)))
  {
    Lengths(p, 0);
    Lengths(p, dataOffset);
    FragmentIs(p);
    hide *;
    HeaderBodies(p);
    ChildrenFound(p, dataOffset);
    RangeMeans(p);
    RunRead(Fragment(p), p, Moof(p, dataOffset), p.baseDecodeTime);
    TrafIs(Fragment(p), TrafBoxes(p, dataOffset), HeaderBody(p.trackID), TimeBody(p.baseDecodeTime),
           RunBody(p.samples, dataOffset), Presented(p.samples, p.baseDecodeTime), p.sequenceNumber);
  }

  lemma FragmentIs(p: Params)
    requires InRange(p)
    ensures
      var dataOffset := |Moof(p, 0)| + 8;
      dataOffset < 0x1_0000_0000 && Fragment(p) == Moof(p, dataOffset) + BoxBytes(MDAT, AllData(p.samples))
  {
    hide BoxBytes, Moof, AllData, Sized;
  }

  lemma RangeMeans(p: Params)
    requires InRange(p)
    ensures |Moof(p, 0)| + 8 < 0x8000_0000
  {
    hide Moof, Sized, AllData;
  }
}
