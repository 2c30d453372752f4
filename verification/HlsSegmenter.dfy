/**
  The LL-HLS segmenter of libhls/hls.go: rotation and parts in `Start`, `openSegment`,
  `closeCurrentPart`, `finaliseCurrent`, the window and the files behind it, and what a playlist
  (libhls/m3u8.go) and a blocked playlist request make of them.
 */
module HlsSegmenter {
  import opened Bytes
  import opened Pes
  import opened TsMux
  import opened TsUnit
  import opened TsSegment
  import R = TsRoundTrip
  import D = TsDemux
  import opened Wrappers

  type Content = it: Item | Proper(it) witness Unit(VIDEO_PID, false, 0xe0, 0, 0, [])

  /** The number in the name of the open segment, if it has one. */
  datatype Name = Unnamed | Named(number: nat)

  datatype Config = Config(targetNs: nat, windowSize: nat, lowLatency: bool, partTargetNs: nat)

  datatype Part = Part(duration: real, independent: bool, byteOffset: nat, byteLength: nat)

  /** A closed segment; its file is named by a number. */
  datatype SegmentInfo = SegmentInfo(file: nat, seqNo: nat, duration: real, startDTS: u64, parts: seq<Part>)

  datatype State = State(
    open: bool, items: seq<Content>, startDTS: u64, endDTS: u64, partStartDTS: u64, partStartOffset: nat,
    name: Name, parts: seq<Part>, segments: seq<SegmentInfo>, nextSeq: nat, files: map<nat, seq<byte>>,
    failed: bool)

  /**
    What a turn of `Start` gets and meets: a unit lifted from a tag, the stream type the tables
    advertise, whether a file can be created and whether the tables are due, and the orders in which
    the two table writers range over the streams.
   */
  datatype Input =
    | Skip
    | Frame(unit: Content, videoType: byte, creates: bool, tablesDue: bool, order1: seq<u16>, order2: seq<u16>)

  /** What the reader hands a turn of `Start`: a tag that is skipped, or one lifted to a unit of a stream. */
  datatype Turn =
    | Skipped
    | Lifted(video: bool, key: bool, pts: u64, dts: u64, data: seq<byte>, videoType: byte, creates: bool, tablesDue: bool)

  /** The input a turn is, the table writers' orders aside. */
  predicate MadeOf(i: Input, t: Turn) {
    match t
    case Skipped => i.Skip?
    case Lifted(video, key, pts, dts, data, videoType, creates, tablesDue) =>
      && i.Frame? && i.videoType == videoType && i.creates == creates && i.tablesDue == tablesDue
      && i.unit == if video then Unit(VIDEO_PID, key, 0xe0, pts, dts, data) else Unit(AUDIO_PID, false, 0xc0, pts, dts, data)
  }

  predicate Sound(i: Input) {
    i.Frame? ==>
      && i.unit.Unit? && (i.unit.key ==> i.unit.pid == VIDEO_PID)
      && i.videoType in {0x1b, 0x24} && StreamOrder(i.order1) && StreamOrder(i.order2)
  }

  // ----- The bytes of a segment -----

  function CountersAfter(items: seq<Content>, cc: map<u16, byte>): map<u16, byte>
    decreases |items|
  {
    if items == [] then cc else CountersAfter(items[1..], ItemCounters(items[0], cc))
  }

  function FileBytes(items: seq<Content>): seq<byte> {
    Flatten(SegmentPackets(items, map[]))
  }

  /** Whether the last item, a unit, is cut into packets without an error. */
  predicate Muxes(items: seq<Content>, unit: Content)
    requires unit.Unit?
  {
    MuxRun(unit.pid, CounterOf(CountersAfter(items, map[]), unit.pid), true, unit.key, unit.dts, UnitBytes(unit), 0).ok
  }

  lemma {:induction false} PacketsSnoc(items: seq<Content>, it: Content, cc: map<u16, byte>)
    ensures SegmentPackets(items + [it], cc) == SegmentPackets(items, cc) + ItemPackets(it, CountersAfter(items, cc))
    ensures CountersAfter(items + [it], cc) == ItemCounters(it, CountersAfter(items, cc))
    decreases |items|
  {
    hide ItemPackets, ItemCounters, Proper;
    var more := items + [it];
    if items == [] {
      assert more == [it] && more[1..] == [];
      assert SegmentPackets(more, cc) == ItemPackets(it, cc) + [];
    } else {
      assert more[1..] == items[1..] + [it];
      PacketsSnoc(items[1..], it, ItemCounters(items[0], cc));
    }
  }

  lemma FileSnoc(items: seq<Content>, it: Content)
    ensures
      var cc := CountersAfter(items, map[]);
      && FileBytes(items + [it]) == FileBytes(items) + Flatten(ItemPackets(it, cc))
      && CountersAfter(items + [it], map[]) == ItemCounters(it, cc)
  {
    hide ItemPackets, ItemCounters, Proper, SegmentPackets, CountersAfter;
    PacketsSnoc(items, it, map[]);
    FlattenAppend(SegmentPackets(items, map[]), ItemPackets(it, CountersAfter(items, map[])));
  }

  predicate Small(cc: map<u16, byte>) {
    forall pid :: pid in cc ==> cc[pid] < 0x10
  }

  lemma {:induction false} CountersSmall(items: seq<Content>, cc: map<u16, byte>)
    requires Small(cc)
    ensures Small(CountersAfter(items, cc))
    decreases |items|
  {
    hide ItemPackets, Proper;
    if items != [] {
      CountersSmall(items[1..], ItemCounters(items[0], cc));
    }
  }

  lemma {:induction false} FramedLength(ps: seq<seq<byte>>)
    requires R.AllFramed(ps)
    ensures |Flatten(ps)| == 188 * |ps|
  {
    if ps != [] {
      FramedLength(ps[1..]);
    }
  }

  /** Every file is a whole number of 188-byte packets. */
  lemma WholePackets(items: seq<Content>)
    ensures |FileBytes(items)| % 188 == 0
  {
    hide SegmentPackets, Seen, Proper;
    SegmentContinuity(items);
    FramedLength(SegmentPackets(items, map[]));
  }

  // ----- The state machine -----

  function Seconds(ticks: u64): real { ticks as real / 90000.0 }

  predicate Reaches(ticks: u64, ns: nat) { Seconds(ticks) * 1000000000.0 >= ns as real }

  function PartClosed(s: State, endDTS: u64): State {
    if !s.open then s
    else
      var duration := Seconds(U64(endDTS - s.partStartDTS));
      var length := |FileBytes(s.items)| - s.partStartOffset;
      if duration <= 0.0 || length <= 0 then s
      else
        s.(parts := s.parts + [Part(duration, s.parts == [], s.partStartOffset, length)],
           partStartDTS := endDTS, partStartOffset := |FileBytes(s.items)|)
  }

  function Reaped(segments: seq<SegmentInfo>, files: map<nat, seq<byte>>, windowSize: nat): (seq<SegmentInfo>, map<nat, seq<byte>>)
    decreases |segments|
  {
    if |segments| <= windowSize then (segments, files)
    else Reaped(segments[1..], files - {segments[0].file}, windowSize)
  }

  /** The last part, if there are bytes behind the others and time behind them too. */
  function LastPart(cfg: Config, s: State): State {
    if cfg.lowLatency && |FileBytes(s.items)| > s.partStartOffset then PartClosed(s, s.endDTS) else s
  }

  function InfoOf(cfg: Config, s: State): SegmentInfo
    requires s.name.Named?
  {
    var duration := Seconds(U64(s.endDTS - s.startDTS));
    SegmentInfo(s.name.number, s.nextSeq, if duration <= 0.0 then cfg.targetNs as real / 1000000000.0 else duration,
                s.startDTS, LastPart(cfg, s).parts)
  }

  function Finalised(cfg: Config, s: State): State
    requires s.open ==> s.name.Named?
  {
    if !s.open then s
    else
      var t := LastPart(cfg, s);
      var kept := Reaped(t.segments + [InfoOf(cfg, s)], t.files[s.name.number := FileBytes(s.items)], cfg.windowSize);
      t.(open := false, parts := [], name := Unnamed, nextSeq := t.nextSeq + 1, segments := kept.0, files := kept.1)
  }

  /** A segment with its last part closed, recorded. */
  function Filed(cfg: Config, t: State): State
    requires t.name.Named?
  {
    var duration := Seconds(U64(t.endDTS - t.startDTS));
    var info := SegmentInfo(t.name.number, t.nextSeq, if duration <= 0.0 then cfg.targetNs as real / 1000000000.0 else duration,
                            t.startDTS, t.parts);
    var kept := Reaped(t.segments + [info], t.files[t.name.number := FileBytes(t.items)], cfg.windowSize);
    t.(open := false, parts := [], name := Unnamed, nextSeq := t.nextSeq + 1, segments := kept.0, files := kept.1)
  }

  lemma FinalisedFiled(cfg: Config, s: State)
    requires s.open && s.name.Named?
    ensures LastPart(cfg, s).name == s.name
    ensures Finalised(cfg, s) == Filed(cfg, LastPart(cfg, s))
  {
    PartsOnly(cfg, s, s.endDTS);
    hide FileBytes, Seconds, U64, Reaped, LastPart;
  }

  function Emptied(s: State, dts: u64): State {
    s.(open := true, items := [], startDTS := dts, endDTS := dts, partStartDTS := dts, partStartOffset := 0,
       name := Named(s.nextSeq), parts := [])
  }

  function Opened(s: State, dts: u64, videoType: byte, order: seq<u16>): State
    requires videoType in {0x1b, 0x24} && StreamOrder(order)
  {
    Emptied(s, dts).(items := [Tables(videoType, order)])
  }

  /** The turn from the tables check on, in an open segment. */
  function Muxed(cfg: Config, s: State, i: Input): State
    requires Sound(i) && i.Frame?
  {
    var before := s.items + if i.tablesDue then [Tables(i.videoType, i.order2)] else [];
    var t := s.(items := before + [i.unit]);
    if !Muxes(before, i.unit) then t
    else
      var u := t.(endDTS := if i.unit.dts > t.endDTS then i.unit.dts else t.endDTS);
      if cfg.lowLatency && Reaches(U64(i.unit.dts - u.partStartDTS), cfg.partTargetNs) then PartClosed(u, i.unit.dts) else u
  }

  /** A key frame starts a segment when none is open, or the open one has lasted long enough. */
  predicate Starts(cfg: Config, s: State, i: Input)
    requires Sound(i)
  {
    i.Frame? && i.unit.key && (!s.open || Reaches(U64(i.unit.dts - s.startDTS), cfg.targetNs))
  }

  function Step(cfg: Config, s: State, i: Input): State
    requires Sound(i) && (s.open ==> s.name.Named?)
    ensures Step(cfg, s, i).open ==> Step(cfg, s, i).name.Named?
  {
    hide Finalised, Muxed, Reaches;
    if i.Skip? || s.failed then s
    else if Starts(cfg, s, i) then
      FinalisedClosed(cfg, s);
      var base := Finalised(cfg, s);
      if !i.creates then base.(failed := true)
      else
        var t := Opened(base, i.unit.dts, i.videoType, i.order1);
        MuxedOpen(cfg, t, i);
        Muxed(cfg, t, i)
    else if !s.open then s
    else
      MuxedOpen(cfg, s, i);
      Muxed(cfg, s, i)
  }

  const START := State(false, [], 0, 0, 0, 0, Unnamed, [], [], 0, map[], false)

  lemma TwoTables(items: seq<Content>, videoType: byte, order: seq<u16>)
    requires videoType in {0x1b, 0x24} && StreamOrder(order)
    ensures
      var cc := CountersAfter(items, map[]);
      var it := Tables(videoType, order);
      && FileBytes(items + [it])
         == FileBytes(items) + PatPacket(CounterOf(cc, PAT_PID)) + PmtPacket(CounterOf(cc, PMT_PID), videoType, order)
      && CountersAfter(items + [it], map[]) == Bump(Bump(cc, PAT_PID), PMT_PID)
  {
    hide FileBytes, CountersAfter, PatPacket, PmtPacket, Bump;
    var cc := CountersAfter(items, map[]);
    FileSnoc(items, Tables(videoType, order));
    var a, b := PatPacket(CounterOf(cc, PAT_PID)), PmtPacket(CounterOf(cc, PMT_PID), videoType, order);
    FlattenTwo(a, b);
    assert FileBytes(items) + a + b == FileBytes(items) + (a + b);
  }

  lemma FlattenTwo(a: seq<byte>, b: seq<byte>)
    ensures Flatten([a, b]) == a + b
  {
    assert [a, b][1..] == [b] && [b][1..] == [];
    assert Flatten([b]) == b;
  }

  lemma ReadyCounter(items: seq<Content>, pid: u16)
    ensures CounterOf(CountersAfter(items, map[]), pid) < 0x10
  {
    CountersSmall(items, map[]);
  }

  lemma UnitWritten(items: seq<Content>, unit: Content)
    requires unit.Unit?
    ensures
      var cc := CountersAfter(items, map[]);
      var n := |ItemPackets(unit, cc)|;
      var r := MuxRun(unit.pid, CounterOf(cc, unit.pid), true, unit.key, unit.dts,
                      Header(1, unit.streamID, unit.pts, unit.dts, |unit.data|) + unit.data, 0);
      && ItemPackets(unit, cc) == r.packets
      && ItemCounters(unit, cc) == cc[unit.pid := (CounterOf(cc, unit.pid) + |r.packets|) % 0x10]
      && Muxes(items, unit) == r.ok
  {
    hide MuxRun, Header, CountersAfter;
  }

  lemma NothingWritten()
    ensures FileBytes([]) == [] && CountersAfter([], map[]) == map[]
  {}

  lemma FinalisedClosed(cfg: Config, s: State)
    requires s.open ==> s.name.Named?
    ensures
      var t := Finalised(cfg, s);
      !t.open && t.failed == s.failed && (!s.open ==> t == s)
  {
    hide FileBytes, Seconds, Reaped, U64;
  }

  lemma OpenedOpen(s: State, dts: u64, videoType: byte, order: seq<u16>)
    requires videoType in {0x1b, 0x24} && StreamOrder(order)
    ensures
      var t := Opened(s, dts, videoType, order);
      t.open && t.name == Named(s.nextSeq) && t.failed == s.failed
  {}

  lemma MuxedOpen(cfg: Config, s: State, i: Input)
    requires Sound(i) && i.Frame? && s.open
    ensures Muxed(cfg, s, i).open && Muxed(cfg, s, i).name == s.name && Muxed(cfg, s, i).failed == s.failed
  {
    hide FileBytes, Muxes, Reaches, Seconds;
  }

  class HLS {
    const cfg: Config
    var cc: Counters
    var currentFile: bool
    var currentWriter: EasyWriter
    var currentStartDTS: u64
    var currentEndDTS: u64
    var partStartDTS: u64
    var partStartOffset: nat
    var segments: seq<SegmentInfo>
    var nextSeq: nat
    var currentParts: seq<Part>
    var currentSegName: Name
    var closedFiles: map<nat, seq<byte>>
    var failed: bool
    /** What was written to the current file. */
    ghost var items: seq<Content>

    constructor (cfg: Config)
      ensures this.cfg == cfg && Valid() && Now() == START && fresh(cc) && fresh(currentWriter)
    {
      this.cfg := cfg;
      cc := new Counters();
      currentWriter := new EasyWriter();
      currentFile, currentSegName, failed := false, Unnamed, false;
      currentStartDTS, currentEndDTS, partStartDTS, partStartOffset := 0, 0, 0, 0;
      segments, nextSeq, currentParts, closedFiles, items := [], 0, [], map[], [];
    }

    ghost predicate Valid()
      reads this, cc, currentWriter
    {
      && (currentFile ==> currentSegName.Named?)
      && (currentFile ==> currentWriter.written == FileBytes(items) && cc.next == CountersAfter(items, map[]))
    }

    ghost function Now(): State
      reads this
    {
      State(currentFile, items, currentStartDTS, currentEndDTS, partStartDTS, partStartOffset,
            currentSegName, currentParts, segments, nextSeq, closedFiles, failed)
    }

    /** `writePSI` on the current file. */
    method WriteTables(videoType: byte) returns (ghost order: seq<u16>)
      requires Valid() && currentFile && videoType in {0x1b, 0x24}
      modifies this`items, cc, currentWriter
      ensures Valid() && StreamOrder(order)
      ensures Now() == old(Now()).(items := old(items) + [Tables(videoType, order)])
    {
      hide FileBytes, CountersAfter, PatPacket, PmtPacket, Bump;
      var ok;
      ok, order := WritePSI(videoType, cc, currentWriter);
      TwoTables(items, videoType, order);
      items := items + [Tables(videoType, order)];
    }

    /** `openSegment`; false when the file cannot be created. */
    method OpenSegment(startDTS: u64, videoType: byte, creates: bool) returns (ok: bool, ghost order: seq<u16>)
      requires Valid() && videoType in {0x1b, 0x24}
      modifies this
      ensures Valid()
      ensures if creates then fresh(cc) && fresh(currentWriter) else cc == old(cc) && currentWriter == old(currentWriter)
      ensures StreamOrder(order)
      ensures ok == creates
      ensures Now() == if creates then Opened(old(Now()), startDTS, videoType, order) else old(Now())
    {
      hide FileBytes, CountersAfter;
      order := [AUDIO_PID, VIDEO_PID];
      if !creates {
        return false, order;
      }
      NewFile(startDTS);
      order := WriteTables(videoType);
      assert [] + [Tables(videoType, order)] == [Tables(videoType, order)];
      return true, order;
    }

    /** The fields that `openSegment` sets around the new file. */
    method NewFile(startDTS: u64)
      modifies this
      ensures Valid() && fresh(cc) && fresh(currentWriter)
      ensures Now() == Emptied(old(Now()), startDTS)
    {
      hide FileBytes, CountersAfter;
      currentWriter := new EasyWriter();
      cc := new Counters();
      currentFile := true;
      items := [];
      NothingWritten();
      StartAt(startDTS);
    }

    method StartAt(startDTS: u64)
      modifies this`currentStartDTS, this`currentEndDTS, this`partStartDTS, this`partStartOffset, this`currentSegName, this`currentParts
      ensures Now() == Emptied(old(Now()), startDTS).(open := currentFile, items := items)
    {
      currentStartDTS := startDTS;
      currentEndDTS := startDTS;
      partStartDTS := startDTS;
      partStartOffset := 0;
      currentSegName := Named(nextSeq);
      currentParts := [];
    }

    method CloseCurrentPart(endDTS: u64)
      requires Valid()
      modifies this`currentParts, this`partStartDTS, this`partStartOffset
      ensures Valid() && Now() == PartClosed(old(Now()), endDTS)
    {
      hide FileBytes, CountersAfter, U64, Seconds;
      if !currentFile {
        return;
      }
      var dur := Seconds(U64(endDTS - partStartDTS));
      if dur <= 0.0 {
        return;
      }
      var length := |currentWriter.written| - partStartOffset;
      if length <= 0 {
        return;
      }
      var independent := |currentParts| == 0;
      currentParts := currentParts + [Part(dur, independent, partStartOffset, length)];
      partStartDTS := endDTS;
      partStartOffset := |currentWriter.written|;
    }

    method FinaliseCurrent()
      requires Valid()
      modifies this
      ensures Valid() && cc == old(cc) && currentWriter == old(currentWriter)
      ensures Now() == Finalised(cfg, old(Now()))
    {
      hide FileBytes, CountersAfter, U64, Seconds, PartClosed;
      if !currentFile {
        return;
      }
      if cfg.lowLatency && |currentWriter.written| > partStartOffset {
        CloseCurrentPart(currentEndDTS);
      }
      RecordSegment();
      FinalisedFiled(cfg, old(Now()));
    }

    /** The record of the segment, and the window moved on. */
    method RecordSegment()
      requires currentFile && currentSegName.Named? && currentWriter.written == FileBytes(items)
      modifies this`closedFiles, this`currentFile, this`currentParts, this`currentSegName, this`nextSeq, this`segments
      ensures Now() == Filed(cfg, old(Now()))
    {
      hide FileBytes, U64, Seconds;
      var name := currentSegName.number;
      closedFiles := closedFiles[name := currentWriter.written];
      currentFile := false;
      var duration := Seconds(U64(currentEndDTS - currentStartDTS));
      if duration <= 0.0 {
        duration := cfg.targetNs as real / 1000000000.0;
      }
      var seg := SegmentInfo(name, nextSeq, duration, currentStartDTS, currentParts);
      currentParts := [];
      currentSegName := Unnamed;
      nextSeq := nextSeq + 1;
      segments := segments + [seg];
      Reap();
    }

    /** Old segments outside the sliding window go, with their files. */
    method Reap()
      modifies this`segments, this`closedFiles
      ensures (segments, closedFiles) == Reaped(old(segments), old(closedFiles), cfg.windowSize)
    {
      while |segments| > cfg.windowSize
        invariant Reaped(segments, closedFiles, cfg.windowSize) == Reaped(old(segments), old(closedFiles), cfg.windowSize)
        decreases |segments|
      {
        var oldest := segments[0];
        segments := segments[1..];
        closedFiles := closedFiles - {oldest.file};
      }
    }

    /** Closes the current segment and opens the next one; false when its file cannot be created. */
    method Rotate(nextStartDTS: u64, videoType: byte, creates: bool) returns (ok: bool, ghost order: seq<u16>)
      requires Valid() && videoType in {0x1b, 0x24}
      modifies this
      ensures Valid()
      ensures if creates then fresh(cc) && fresh(currentWriter) else cc == old(cc) && currentWriter == old(currentWriter)
      ensures StreamOrder(order) && ok == creates
      ensures
        var base := Finalised(cfg, old(Now()));
        Now() == if creates then Opened(base, nextStartDTS, videoType, order) else base
    {
      hide Finalised, Opened, FileBytes, CountersAfter;
      FinaliseCurrent();
      ok, order := OpenSegment(nextStartDTS, videoType, creates);
    }

    /** The packet loop on the current file; false when muxing failed. */
    method WriteItem(pes: PES, pid: u16, key: bool) returns (ok: bool)
      requires Valid() && currentFile
      requires pes.Valid() && pes.Position() == 0 && pes.startCodePrefix == 1 && Media(pid)
      modifies this`items, cc, currentWriter, pes
      ensures Valid() && pes.Source() == old(pes.Source())
      ensures
        var unit := Unit(pid, key, old(pes.streamID), old(pes.pts), old(pes.dts), old(pes.data));
        Now() == old(Now()).(items := old(items) + [unit]) && ok == Muxes(old(items), unit)
    {
      hide FileBytes, CountersAfter, MuxRun, Header, CounterOf, Small, UnitBytes, Muxes;
      ghost var unit: Content := Unit(pid, key, pes.streamID, pes.pts, pes.dts, pes.data);
      ReadyCounter(items, pid);
      FileSnoc(items, unit);
      UnitWritten(items, unit);
      ok := WriteUnit(pes, pid, key, cc, currentWriter);
      items := items + [unit];
    }

    /** The turn from the tables check on. */
    method MuxUnit(pes: PES, pid: u16, key: bool, videoType: byte, tablesDue: bool) returns (ghost order: seq<u16>)
      requires Valid() && currentFile && videoType in {0x1b, 0x24}
      requires pes.Valid() && pes.Position() == 0 && pes.startCodePrefix == 1 && Media(pid)
      requires key ==> pid == VIDEO_PID
      modifies this, cc, currentWriter, pes
      ensures Valid() && cc == old(cc) && currentWriter == old(currentWriter)
      ensures StreamOrder(order) && pes.Source() == old(pes.Source())
      ensures
        var unit := Unit(pid, key, old(pes.streamID), old(pes.pts), old(pes.dts), old(pes.data));
        forall creates, order1 | StreamOrder(order1) ::
          Now() == Muxed(cfg, old(Now()), Frame(unit, videoType, creates, tablesDue, order1, order))
    {
      hide FileBytes, CountersAfter, Muxes, Reaches, PartClosed, U64;
      ghost var unit: Content := Unit(pid, key, pes.streamID, pes.pts, pes.dts, pes.data);
      order := [AUDIO_PID, VIDEO_PID];
      if tablesDue {
        order := WriteTables(videoType);
      }
      assert items == old(items) + if tablesDue then [Tables(videoType, order)] else [];
      var dts := pes.dts;
      var ok := WriteItem(pes, pid, key);
      if !ok {
        return;
      }
      if dts > currentEndDTS {
        currentEndDTS := dts;
      }
      if cfg.lowLatency && currentFile {
        if Reaches(U64(dts - partStartDTS), cfg.partTargetNs) {
          CloseCurrentPart(dts);
        }
      }
    }

    /** One turn of the loop of `Start` with a unit; false when it returns an error. */
    method Feed(pes: PES, pid: u16, videoFrameKey: bool, videoType: byte, creates: bool, tablesDue: bool)
      returns (ok: bool, ghost input: Input)
      requires Valid() && !failed && videoType in {0x1b, 0x24}
      requires pes.Valid() && pes.Position() == 0 && pes.startCodePrefix == 1 && Media(pid)
      requires videoFrameKey ==> pid == VIDEO_PID
      modifies this, cc, currentWriter, pes
      ensures Valid() && Sound(input) && ok == !failed && pes.Source() == old(pes.Source())
      ensures (cc == old(cc) || fresh(cc)) && (currentWriter == old(currentWriter) || fresh(currentWriter))
      ensures
        input.Frame? && input.videoType == videoType && input.creates == creates && input.tablesDue == tablesDue
        && input.unit == Unit(pid, videoFrameKey, old(pes.streamID), old(pes.pts), old(pes.dts), old(pes.data))
      ensures Now() == Step(cfg, old(Now()), input)
    {
      hide FileBytes, CountersAfter, Reaches, Muxed, Finalised, Opened;
      ghost var unit: Content := Unit(pid, videoFrameKey, pes.streamID, pes.pts, pes.dts, pes.data);
      ghost var order1, order2 := [AUDIO_PID, VIDEO_PID], [AUDIO_PID, VIDEO_PID];
      input := Frame(unit, videoType, creates, tablesDue, order1, order2);
      ghost var base := if Starts(cfg, Now(), input) then Finalised(cfg, Now()) else Now();
      FinalisedClosed(cfg, Now());
      if videoFrameKey {
        if !currentFile {
          ok, order1 := OpenSegment(pes.dts, videoType, creates);
        } else {
          ok := true;
          if Reaches(U64(pes.dts - currentStartDTS), cfg.targetNs) {
            ok, order1 := Rotate(pes.dts, videoType, creates);
          }
        }
        if !ok {
          failed := true;
          return;
        }
        OpenedOpen(base, pes.dts, videoType, order1);
      } else if !currentFile {
        return true, input;
      }
      order2 := MuxUnit(pes, pid, videoFrameKey, videoType, tablesDue);
      input := Frame(unit, videoType, creates, tablesDue, order1, order2);
      MuxedOpen(cfg, if Starts(cfg, old(Now()), input) then Opened(base, unit.dts, videoType, order1) else base, input);
      return true, input;
    }

    /** The fields `toPES` sets in the stream's PES. */
    method Lift(pes: PES, pts: u64, dts: u64, data: seq<byte>)
      modifies pes`pts, pes`dts, pes`data, pes`index, pes`headerIndex
      ensures pes.Valid() && pes.Position() == 0
      ensures (pes.pts, pes.dts, pes.data) == (pts, dts, data)
    {
      pes.dts, pes.pts := dts, pts;
      pes.index, pes.headerIndex := 0, 0;
      pes.data := data;
    }

    /** The whole loop, up to the reader's end or an error, and the deferred end of the last segment. */
    method Start(turns: seq<Turn>, video: PES, audio: PES) returns (ok: bool, ghost inputs: seq<Input>)
      requires Valid() && !failed && video != audio
      requires video.startCodePrefix == 1 && video.streamID == 0xe0
      requires audio.startCodePrefix == 1 && audio.streamID == 0xc0
      requires forall k :: 0 <= k < |turns| && turns[k].Lifted? ==> turns[k].videoType in {0x1b, 0x24}
      modifies this, cc, currentWriter, video, audio
      ensures Valid() && ok == !failed
      ensures |inputs| <= |turns| && (ok ==> |inputs| == |turns|)
      ensures forall k :: 0 <= k < |inputs| ==> MadeOf(inputs[k], turns[k])
      ensures AllSound(inputs) && Now() == Finalised(cfg, RunOf(cfg, old(Now()), inputs))
    {
      hide FileBytes, CountersAfter, Step, Finalised;
      inputs := [];
      ok := true;
      var i := 0;
      ghost var start := Now();
      while i < |turns| && ok
        invariant 0 <= i <= |turns| && |inputs| == i
        invariant Valid() && ok == !failed
        invariant cc == old(cc) || fresh(cc)
        invariant currentWriter == old(currentWriter) || fresh(currentWriter)
        invariant video.startCodePrefix == 1 && video.streamID == 0xe0
        invariant audio.startCodePrefix == 1 && audio.streamID == 0xc0
        invariant forall k :: 0 <= k < |inputs| ==> MadeOf(inputs[k], turns[k])
        invariant AllSound(inputs) && Now() == RunOf(cfg, start, inputs)
        decreases |turns| - i
      {
        ghost var input := Skip;
        match turns[i] {
          case Skipped =>
            SkipStays(cfg, Now());
          case Lifted(isVideo, key, pts, dts, data, videoType, creates, tablesDue) =>
            if isVideo {
              Lift(video, pts, dts, data);
              ok, input := Feed(video, VIDEO_PID, key, videoType, creates, tablesDue);
            } else {
              Lift(audio, pts, dts, data);
              ok, input := Feed(audio, AUDIO_PID, false, videoType, creates, tablesDue);
            }
        }
        RunSnoc(cfg, start, inputs, input);
        inputs := inputs + [input];
        i := i + 1;
      }
      FinalisedClosed(cfg, Now());
      FinaliseCurrent();
    }
  }

  // ----- Parts -----

  function PartEnd(parts: seq<Part>, i: nat): nat
    requires i <= |parts|
  {
    if i == 0 then 0 else parts[i - 1].byteOffset + parts[i - 1].byteLength
  }

  /** Part i starts where the one before it ends, on a packet boundary, and is not empty; only the first is independent. */
  predicate Tile(parts: seq<Part>, i: nat)
    requires i < |parts|
  {
    && parts[i].byteOffset == PartEnd(parts, i)
    && parts[i].byteOffset % 188 == 0
    && parts[i].byteLength > 0 && parts[i].duration > 0.0
    && (parts[i].independent <==> i == 0)
  }

  /** The parts cover the bytes up to end, each of them once. */
  predicate Tiles(parts: seq<Part>, end: nat) {
    && (forall i :: 0 <= i < |parts| ==> Tile(parts, i))
    && end == PartEnd(parts, |parts|)
    && end % 188 == 0
  }

  lemma TilesSnoc(parts: seq<Part>, end: nat, part: Part)
    requires Tiles(parts, end)
    requires part.byteOffset == end && part.byteLength > 0 && part.duration > 0.0 && (end + part.byteLength) % 188 == 0
    requires part.independent <==> parts == []
    ensures Tiles(parts + [part], end + part.byteLength)
  {
    var more := parts + [part];
    forall i | 0 <= i < |more|
      ensures Tile(more, i)
    {
      if i < |parts| {
        assert Tile(parts, i) && PartEnd(more, i) == PartEnd(parts, i);
      } else {
        assert PartEnd(more, i) == PartEnd(parts, i);
      }
    }
  }

  predicate Parted(s: State) {
    Tiles(s.parts, s.partStartOffset) && s.partStartOffset <= |FileBytes(s.items)|
  }

  lemma ClosedTiles(s: State, endDTS: u64)
    requires s.open && Parted(s)
    ensures Parted(PartClosed(s, endDTS))
    ensures
      PartClosed(s, endDTS).partStartOffset == |FileBytes(s.items)|
      <==> s.partStartOffset == |FileBytes(s.items)| || U64(endDTS - s.partStartDTS) != 0
    ensures s.parts <= PartClosed(s, endDTS).parts
  {
    WholePackets(s.items);
    hide FileBytes, Tiles, U64;
    var duration, length := Seconds(U64(endDTS - s.partStartDTS)), |FileBytes(s.items)| - s.partStartOffset;
    if duration > 0.0 && length > 0 {
      TilesSnoc(s.parts, s.partStartOffset, Part(duration, s.parts == [], s.partStartOffset, length));
    }
  }

  /** The byte a preload hint points at: past the part that reaches furthest. */
  function Preload(parts: seq<Part>): nat {
    if parts == [] then 0
    else
      var next := parts[|parts| - 1].byteOffset + parts[|parts| - 1].byteLength;
      var before := Preload(parts[..|parts| - 1]);
      if next > before then next else before
  }

  /** The hint is where the next part will start. */
  lemma {:induction false} PreloadIs(parts: seq<Part>, end: nat)
    requires Tiles(parts, end)
    ensures Preload(parts) == end
    decreases |parts|
  {
    if parts != [] {
      var front := parts[..|parts| - 1];
      var last := parts[|parts| - 1];
      assert Tile(parts, |front|) && PartEnd(front, |front|) == PartEnd(parts, |front|);
      forall i | 0 <= i < |front|
        ensures Tile(front, i)
      {
        assert Tile(parts, i) && PartEnd(front, i) == PartEnd(parts, i);
      }
      PreloadIs(front, last.byteOffset);
    }
  }

  /** The numbers in `buildLLPlaylist`: media sequence, and preload offset when a segment is open; none when there is nothing to list. */
  method PlaylistNumbers(segments: seq<SegmentInfo>, currentParts: seq<Part>, currentName: Name)
    returns (listed: bool, mediaSeq: nat, preloadOffset: nat)
    ensures listed <==> segments != [] || currentName.Named?
    ensures listed ==> mediaSeq == if segments == [] then 0 else segments[0].seqNo
    ensures listed && currentName.Named? ==> preloadOffset == Preload(currentParts)
  {
    mediaSeq, preloadOffset := 0, 0;
    if |segments| == 0 && currentName.Unnamed? {
      return false, 0, 0;
    }
    if |segments| > 0 {
      mediaSeq := segments[0].seqNo;
    }
    if currentName.Named? {
      var i := 0;
      while i < |currentParts|
        invariant 0 <= i <= |currentParts|
        invariant preloadOffset == Preload(currentParts[..i])
      {
        assert currentParts[..i + 1][..i] == currentParts[..i];
        var next := currentParts[i].byteOffset + currentParts[i].byteLength;
        if next > preloadOffset {
          preloadOffset := next;
        }
        i := i + 1;
      }
      assert currentParts[..|currentParts|] == currentParts;
    }
    listed := true;
  }

  // ----- Segments -----

  function FirstUnit(items: seq<Content>): seq<Content> {
    if items == [] then [] else if items[0].Unit? then [items[0]] else FirstUnit(items[1..])
  }

  lemma {:induction false} FirstUnitSnoc(items: seq<Content>, it: Content)
    ensures
      FirstUnit(items + [it])
      == if FirstUnit(items) != [] then FirstUnit(items) else if it.Unit? then [it] else []
  {
    var more := items + [it];
    if items == [] {
      assert more == [it] && more[1..] == [];
    } else {
      assert more[1..] == items[1..] + [it];
      FirstUnitSnoc(items[1..], it);
    }
  }

  /** Tables first, and the first unit a key frame of the video stream. */
  predicate Independent(items: seq<Content>) {
    && items != [] && items[0].Tables?
    && var first := FirstUnit(items);
       first != [] && first[0].Unit? && first[0].key && first[0].pid == VIDEO_PID
  }

  function UnitsIn(items: seq<Content>): seq<Content> {
    if items == [] then []
    else UnitsIn(items[..|items| - 1]) + if items[|items| - 1].Unit? then [items[|items| - 1]] else []
  }

  lemma UnitsInSnoc(items: seq<Content>, it: Content)
    ensures UnitsIn(items + [it]) == UnitsIn(items) + if it.Unit? then [it] else []
  {
    assert (items + [it])[..|items|] == items;
  }

  // ----- Times -----

  /** The greatest decoding time of the units that muxed, and no less than the time it starts from. */
  function LatestTime(items: seq<Content>, start: u64): (t: u64)
    ensures t >= start
  {
    if items == [] then start
    else
      var front, it := items[..|items| - 1], items[|items| - 1];
      var before := LatestTime(front, start);
      if it.Unit? && Muxes(front, it) && it.dts > before then it.dts else before
  }

  /** No unit is earlier than one before it. */
  predicate Steady(items: seq<Content>) {
    forall i, j :: 0 <= i < j < |items| && items[i].Unit? && items[j].Unit? ==> items[i].dts <= items[j].dts
  }

  function Total(parts: seq<Part>): real {
    if parts == [] then 0.0 else Total(parts[..|parts| - 1]) + parts[|parts| - 1].duration
  }

  /** The parts last from one time to another, and a turn of the 64-bit clock for each that ended before it began. */
  predicate Lasts(parts: seq<Part>, start: u64, end: u64, turns: nat) {
    Total(parts) == (end - start + turns * 0x1_0000_0000_0000_0000) as real / 90000.0
  }

  /** Parts of units that start at a time, up to another; there are no turns when no unit goes back. */
  ghost predicate Spans(items: seq<Content>, parts: seq<Part>, start: u64, end: u64) {
    && (exists turns: nat :: Lasts(parts, start, end, turns))
    && (Steady(items) ==> Lasts(parts, start, end, 0) && end <= LatestTime(items, start))
  }

  /** An open segment starts at its first unit's time and has reached its latest unit's. */
  ghost predicate Clocked(s: State) {
    var first := FirstUnit(s.items);
    && first != [] && first[0].Unit? && s.startDTS == first[0].dts && s.endDTS == LatestTime(s.items, s.startDTS)
    && Spans(s.items, s.parts, s.startDTS, s.partStartDTS)
  }

  /** A closed segment: what its file holds, what is recorded of it, how far and until when its parts reach. */
  datatype Closed = Closed(items: seq<Content>, info: SegmentInfo, covered: nat, partEnd: u64)

  /** What is recorded is the first unit's time and the time from there to the latest, or the target if there is none. */
  ghost predicate RecordedWell(cfg: Config, c: Closed) {
    var first := FirstUnit(c.items);
    && first != [] && first[0].Unit? && c.info.startDTS == first[0].dts
    && (var ticks := LatestTime(c.items, first[0].dts) - first[0].dts;
        c.info.duration == if ticks == 0 then cfg.targetNs as real / 1000000000.0 else ticks as real / 90000.0)
    && Spans(c.items, c.info.parts, first[0].dts, c.partEnd)
  }

  ghost predicate Recorded(cfg: Config, done: seq<Closed>) {
    forall k :: 0 <= k < |done| ==> RecordedWell(cfg, done[k])
  }

  lemma TotalSnoc(parts: seq<Part>, part: Part)
    ensures Total(parts + [part]) == Total(parts) + part.duration
  {
    assert (parts + [part])[..|parts|] == parts;
  }

  lemma LatestSnoc(items: seq<Content>, it: Content, start: u64)
    ensures
      var before := LatestTime(items, start);
      LatestTime(items + [it], start) == if it.Unit? && Muxes(items, it) && it.dts > before then it.dts else before
  {
    hide Muxes;
    assert (items + [it])[..|items|] == items;
  }

  lemma SteadySnoc(items: seq<Content>, it: Content)
    ensures Steady(items + [it]) ==> Steady(items)
    ensures Steady(items) && it.Tables? ==> Steady(items + [it])
    ensures Steady(items + [it]) && it.Unit? ==> forall i :: 0 <= i < |items| && items[i].Unit? ==> items[i].dts <= it.dts
  {
    hide Proper;
    var more := items + [it];
    assert forall i :: 0 <= i < |items| ==> more[i] == items[i];
    assert more[|items|] == it;
  }

  /** The latest time is a unit's or the one it starts from. */
  lemma {:induction false} LatestBelow(items: seq<Content>, start: u64, bound: u64)
    requires start <= bound && forall i :: 0 <= i < |items| && items[i].Unit? ==> items[i].dts <= bound
    ensures LatestTime(items, start) <= bound
  {
    hide Muxes, Proper;
    if items != [] {
      LatestBelow(items[..|items| - 1], start, bound);
    }
  }

  lemma {:induction false} NoUnitLatest(items: seq<Content>, start: u64)
    requires FirstUnit(items) == []
    ensures LatestTime(items, start) == start && Steady(items)
    ensures forall i :: 0 <= i < |items| ==> items[i].Tables?
  {
    hide Muxes, Proper;
    if items != [] {
      var front, it := items[..|items| - 1], items[|items| - 1];
      assert items == front + [it];
      FirstUnitSnoc(front, it);
      NoUnitLatest(front, start);
    }
  }

  lemma {:induction false} FirstUnitIn(items: seq<Content>)
    ensures
      var first := FirstUnit(items);
      first != [] ==> |first| == 1 && first[0].Unit? && exists i :: 0 <= i < |items| && items[i] == first[0]
  {
    hide Proper;
    if items != [] && items[0].Tables? {
      FirstUnitIn(items[1..]);
      var first := FirstUnit(items);
      if first != [] {
        var i :| 0 <= i < |items[1..]| && items[1..][i] == first[0];
        assert items[i + 1] == first[0];
      }
    }
  }

  lemma WrappedTicks(end: u64, start: u64)
    ensures U64(end - start) == end - start + if end < start then 0x1_0000_0000_0000_0000 else 0
  {}

  /** One more part, closed at a time. */
  lemma PartLasts(parts: seq<Part>, start: u64, partStart: u64, end: u64, turns: nat, part: Part)
    requires Lasts(parts, start, partStart, turns) && part.duration == Seconds(U64(end - partStart))
    ensures Lasts(parts + [part], start, end, turns + if end < partStart then 1 else 0)
  {
    TotalSnoc(parts, part);
    WrappedTicks(end, partStart);
    hide Total, U64;
  }

  lemma OneMorePart(items: seq<Content>, parts: seq<Part>, start: u64, partStart: u64, end: u64, part: Part)
    requires Spans(items, parts, start, partStart) && part.duration == Seconds(U64(end - partStart))
    requires Steady(items) ==> partStart <= end <= LatestTime(items, start)
    ensures Spans(items, parts + [part], start, end)
  {
    var turns: nat :| Lasts(parts, start, partStart, turns);
    hide Lasts, Seconds, U64, Steady, LatestTime;
    PartLasts(parts, start, partStart, end, turns, part);
    if Steady(items) {
      PartLasts(parts, start, partStart, end, 0, part);
    }
  }

  /** Closing a part at a time that no unit's is past. */
  lemma ClosedSpans(s: State, endDTS: u64)
    requires s.open && Spans(s.items, s.parts, s.startDTS, s.partStartDTS)
    requires Steady(s.items) ==> s.partStartDTS <= endDTS <= LatestTime(s.items, s.startDTS)
    ensures
      var t := PartClosed(s, endDTS);
      Spans(t.items, t.parts, t.startDTS, t.partStartDTS)
  {
    hide FileBytes, Steady, LatestTime, Spans, Seconds, U64;
    var duration, length := Seconds(U64(endDTS - s.partStartDTS)), |FileBytes(s.items)| - s.partStartOffset;
    if duration > 0.0 && length > 0 {
      OneMorePart(s.items, s.parts, s.startDTS, s.partStartDTS, endDTS, Part(duration, s.parts == [], s.partStartOffset, length));
    }
  }

  /** An open segment that waits for its first unit, or has one. */
  ghost predicate Ready(s: State, unit: Content)
    requires unit.Unit?
  {
    if FirstUnit(s.items) == [] then s.startDTS == s.endDTS == s.partStartDTS == unit.dts && s.parts == []
    else Clocked(s)
  }

  lemma TablesReady(s: State, tables: Content, unit: Content)
    requires tables.Tables? && unit.Unit? && Ready(s, unit)
    ensures Ready(s.(items := s.items + [tables]), unit)
  {
    FirstUnitSnoc(s.items, tables);
    LatestSnoc(s.items, tables, s.startDTS);
    SteadySnoc(s.items, tables);
    hide Steady, LatestTime, FirstUnit, Lasts, Muxes, Proper;
  }

  lemma NoParts(start: u64)
    ensures Lasts([], start, start, 0)
  {}

  /** The unit behind those there, with the end moved if it muxed. */
  lemma UnitReady(s: State, unit: Content)
    requires unit.Unit? && Ready(s, unit)
    ensures
      var muxes := Muxes(s.items, unit);
      var t := s.(items := s.items + [unit], endDTS := if muxes && unit.dts > s.endDTS then unit.dts else s.endDTS);
      && Clocked(t)
      && (Steady(t.items) ==> t.partStartDTS <= unit.dts)
      && (muxes ==> unit.dts <= LatestTime(t.items, t.startDTS))
  {
    hide Steady, LatestTime, FirstUnit, Lasts, Muxes, Proper;
    FirstUnitSnoc(s.items, unit);
    LatestSnoc(s.items, unit, s.startDTS);
    SteadySnoc(s.items, unit);
    if FirstUnit(s.items) == [] {
      NoUnitLatest(s.items, s.startDTS);
      NoParts(s.startDTS);
    } else if Steady(s.items + [unit]) {
      FirstUnitIn(s.items);
      LatestBelow(s.items, s.startDTS, unit.dts);
    }
  }

  lemma MuxedClocked(cfg: Config, s: State, i: Input)
    requires Sound(i) && i.Frame? && s.open && Ready(s, i.unit)
    ensures Clocked(Muxed(cfg, s, i))
  {
    hide FileBytes, Muxes, Reaches, Steady, LatestTime, FirstUnit, Lasts, U64;
    var tables := if i.tablesDue then [Tables(i.videoType, i.order2)] else [];
    var s1 := s.(items := s.items + tables);
    assert s.items + [] == s.items;
    if i.tablesDue {
      TablesReady(s, Tables(i.videoType, i.order2), i.unit);
    }
    UnitReady(s1, i.unit);
    var muxes := Muxes(s1.items, i.unit);
    var u := s1.(items := s1.items + [i.unit], endDTS := if muxes && i.unit.dts > s1.endDTS then i.unit.dts else s1.endDTS);
    if muxes {
      ClosedSpans(u, i.unit.dts);
      PartsOnly(cfg, u, i.unit.dts);
    }
    hide PartClosed, Spans;
  }

  lemma OpenedReady(s: State, dts: u64, videoType: byte, order: seq<u16>, unit: Content)
    requires videoType in {0x1b, 0x24} && StreamOrder(order) && unit.Unit? && unit.dts == dts
    ensures Ready(Opened(s, dts, videoType, order), unit)
  {
    hide Clocked;
    OneTable(Tables(videoType, order));
  }

  /** The turns of the loop keep an open segment's times. */
  lemma StepClocked(cfg: Config, s: State, i: Input)
    requires Sound(i) && (s.open ==> s.name.Named? && Clocked(s))
    ensures Step(cfg, s, i).open ==> Clocked(Step(cfg, s, i))
  {
    hide Muxed, Finalised, Opened, Clocked, Reaches, FirstUnit;
    if i.Frame? && !s.failed {
      if Starts(cfg, s, i) {
        FinalisedClosed(cfg, s);
        var base := Finalised(cfg, s);
        OpenedReady(base, i.unit.dts, i.videoType, i.order1, i.unit);
        OpenedOpen(base, i.unit.dts, i.videoType, i.order1);
        MuxedClocked(cfg, Opened(base, i.unit.dts, i.videoType, i.order1), i);
      } else if s.open {
        ClockedReady(s, i.unit);
        MuxedClocked(cfg, s, i);
      }
    }
  }

  lemma ClockedReady(s: State, unit: Content)
    requires Clocked(s) && unit.Unit?
    ensures Ready(s, unit)
  {
    hide Spans;
  }

  /** What is recorded when a segment is closed. */
  lemma ClosedRecorded(cfg: Config, s: State)
    requires s.open && s.name.Named? && Clocked(s)
    ensures RecordedWell(cfg, ClosedOf(cfg, s))
  {
    hide FileBytes, Steady, LatestTime, FirstUnit, Lasts;
    WrappedTicks(s.endDTS, s.startDTS);
    ClosedSpans(s, s.endDTS);
    PartsOnly(cfg, s, s.endDTS);
    hide PartClosed, U64, Spans;
    var ticks := s.endDTS - s.startDTS;
    assert Seconds(ticks) <= 0.0 <==> ticks == 0;
  }

  lemma RecordedMore(cfg: Config, done: seq<Closed>, c: Closed)
    requires Recorded(cfg, done) && RecordedWell(cfg, c)
    ensures Recorded(cfg, done + [c])
  {
    hide RecordedWell;
  }

  function UnitsOf(done: seq<Closed>): seq<Content> {
    if done == [] then [] else UnitsOf(done[..|done| - 1]) + UnitsIn(done[|done| - 1].items)
  }

  lemma UnitsOfSnoc(done: seq<Closed>, c: Closed)
    ensures UnitsOf(done + [c]) == UnitsOf(done) + UnitsIn(c.items)
  {
    assert (done + [c])[..|done|] == done;
  }

  function Oldest(cfg: Config, count: nat): nat {
    if count > cfg.windowSize then count - cfg.windowSize else 0
  }

  function Infos(done: seq<Closed>, from: nat): (r: seq<SegmentInfo>)
    requires from <= |done|
    ensures |r| == |done| - from
  {
    seq(|done| - from, i requires 0 <= i < |done| - from => done[from + i].info)
  }

  /** Numbered consecutively from 0, named by number, tiled by parts, starting with a key frame. */
  predicate Sequenced(done: seq<Closed>) {
    forall k :: 0 <= k < |done| ==>
      && done[k].info.seqNo == k && done[k].info.file == k
      && Independent(done[k].items)
      && Tiles(done[k].info.parts, done[k].covered) && done[k].covered <= |FileBytes(done[k].items)|
  }

  ghost predicate Kept(files: map<nat, seq<byte>>, done: seq<Closed>, from: nat) {
    && (forall k :: k in files <==> from <= k < |done|)
    && (forall k :: from <= k < |done| ==> files[k] == FileBytes(done[k].items))
  }

  predicate OpenWell(s: State) {
    if s.open then s.name == Named(s.nextSeq) && Independent(s.items) && Parted(s)
    else s.name == Unnamed && s.parts == []
  }

  /**
    The state that the segments closed so far, and the units taken in, determine: the window lists
    the last windowSize closed segments, exactly their files are kept besides the open one's, and
    every unit taken in is in one segment, in order. Times are those of the units.
   */
  ghost predicate Represents(cfg: Config, s: State, done: seq<Closed>, taken: seq<Content>) {
    var from := Oldest(cfg, |done|);
    && Sequenced(done)
    && s.nextSeq == |done|
    && s.segments == Infos(done, from)
    && Kept(s.files, done, from)
    && OpenWell(s)
    && taken == UnitsOf(done) + (if s.open then UnitsIn(s.items) else [])
    && Recorded(cfg, done)
    && (s.open ==> Clocked(s))
  }

  function ClosedOf(cfg: Config, s: State): Closed
    requires s.name.Named?
  {
    Closed(s.items, InfoOf(cfg, s), LastPart(cfg, s).partStartOffset, LastPart(cfg, s).partStartDTS)
  }

  lemma LastPartTiles(cfg: Config, s: State)
    requires s.open && Parted(s)
    ensures Parted(LastPart(cfg, s)) && s.parts <= LastPart(cfg, s).parts
  {
    ClosedTiles(s, s.endDTS);
    hide PartClosed, Parted, FileBytes;
  }

  /** Closing a part touches nothing but the parts. */
  lemma PartsOnly(cfg: Config, s: State, endDTS: u64)
    ensures
      var t := PartClosed(s, endDTS);
      t == s.(parts := t.parts, partStartDTS := t.partStartDTS, partStartOffset := t.partStartOffset)
    ensures
      var t := LastPart(cfg, s);
      t == s.(parts := t.parts, partStartDTS := t.partStartDTS, partStartOffset := t.partStartOffset)
  {
    hide FileBytes, Seconds, U64;
  }

  lemma ReapedOnce(segments: seq<SegmentInfo>, files: map<nat, seq<byte>>, windowSize: nat)
    requires |segments| <= windowSize + 1
    ensures
      Reaped(segments, files, windowSize)
      == if |segments| <= windowSize then (segments, files) else (segments[1..], files - {segments[0].file})
  {}

  lemma InfosAt(done: seq<Closed>, from: nat, i: nat)
    requires from + i < |done|
    ensures Infos(done, from)[i] == done[from + i].info
  {}

  lemma InfosGrow(cfg: Config, done: seq<Closed>, c: Closed)
    ensures
      var from, to := Oldest(cfg, |done|), Oldest(cfg, |done| + 1);
      var all := Infos(done, from) + [c.info];
      && from <= to <= from + 1 && to <= |done| + 1
      && all[0] == (done + [c])[from].info
      && Infos(done + [c], to) == all[to - from..]
  {
    hide Infos;
    var from, to := Oldest(cfg, |done|), Oldest(cfg, |done| + 1);
    var all := Infos(done, from) + [c.info];
    var next := Infos(done + [c], to);
    forall i | 0 <= i < |all|
      ensures all[i] == (done + [c])[from + i].info
    {
      if from + i < |done| {
        InfosAt(done, from, i);
      }
    }
    forall i | 0 <= i < |next|
      ensures next[i] == all[to - from + i]
    {
      InfosAt(done + [c], to, i);
    }
    assert next == all[to - from..];
  }

  lemma KeptGrows(files: map<nat, seq<byte>>, done: seq<Closed>, c: Closed, from: nat, to: nat)
    requires Kept(files, done, from) && from <= |done| && from <= to <= from + 1
    ensures
      var more := files[|done| := FileBytes(c.items)];
      Kept(if to == from then more else more - {from}, done + [c], to)
  {
    hide FileBytes;
  }

  lemma SequencedGrows(done: seq<Closed>, c: Closed)
    requires Sequenced(done)
    requires c.info.seqNo == |done| && c.info.file == |done| && Independent(c.items)
    requires Tiles(c.info.parts, c.covered) && c.covered <= |FileBytes(c.items)|
    ensures Sequenced(done + [c])
  {
    hide Independent, Tiles, FileBytes;
  }

  lemma FinalisedIs(cfg: Config, s: State, done: seq<Closed>, taken: seq<Content>)
    requires Represents(cfg, s, done, taken) && s.open
    ensures
      var from, to := Oldest(cfg, |done|), Oldest(cfg, |done| + 1);
      var more := s.files[|done| := FileBytes(s.items)];
      var t := Finalised(cfg, s);
      && t.segments == Infos(done + [ClosedOf(cfg, s)], to)
      && t.files == (if to == from then more else more - {from})
      && t.nextSeq == |done| + 1 && !t.open && t.parts == [] && t.name == Unnamed && t.failed == s.failed
  {
    hide Recorded, Clocked, FileBytes, Kept, Sequenced, Infos, Independent, Parted, Seconds, UnitsIn, UnitsOf, PartClosed, Reaped;
    var from, to := Oldest(cfg, |done|), Oldest(cfg, |done| + 1);
    var c := ClosedOf(cfg, s);
    var all := s.segments + [c.info];
    PartsOnly(cfg, s, s.endDTS);
    InfosGrow(cfg, done, c);
    assert all[0].file == from by {
      if from < |done| {
        SequencedAt(done, from);
      }
      assert (done + [c])[from] == if from < |done| then done[from] else c;
    }
    ReapedOnce(all, s.files[|done| := FileBytes(s.items)], cfg.windowSize);
    assert all[0..] == all;
  }

  lemma SequencedAt(done: seq<Closed>, k: nat)
    requires Sequenced(done) && k < |done|
    ensures done[k].info.file == k
  {}

  lemma FinalisedRepresents(cfg: Config, s: State, done: seq<Closed>, taken: seq<Content>)
    requires Represents(cfg, s, done, taken)
    ensures Represents(cfg, Finalised(cfg, s), if s.open then done + [ClosedOf(cfg, s)] else done, taken)
  {
    hide Recorded, Clocked, FileBytes, Kept, Sequenced, Infos, Independent, Parted, UnitsIn, UnitsOf, PartClosed, Reaped;
    if s.open {
      var from, to := Oldest(cfg, |done|), Oldest(cfg, |done| + 1);
      var c := ClosedOf(cfg, s);
      FinalisedIs(cfg, s, done, taken);
      hide Finalised, LastPart;
      LastPartTiles(cfg, s);
      PartsOnly(cfg, s, s.endDTS);
      assert Tiles(c.info.parts, c.covered) && c.covered <= |FileBytes(c.items)| by { PartedMeans(LastPart(cfg, s)); }
      SequencedGrows(done, c);
      KeptGrows(s.files, done, c, from, to);
      UnitsOfSnoc(done, c);
      ClosedRecorded(cfg, s);
      RecordedMore(cfg, done, c);
      assert |done + [c]| == |done| + 1;
    }
  }

  lemma PartedMeans(s: State)
    requires Parted(s)
    ensures Tiles(s.parts, s.partStartOffset) && s.partStartOffset <= |FileBytes(s.items)|
  {}

  // ----- Runs -----

  /** A segment that may take a unit: its first, if the unit is a video key frame. */
  predicate Takes(s: State, unit: Content)
    requires unit.Unit?
  {
    && s.open && s.name == Named(s.nextSeq) && Parted(s)
    && s.items != [] && s.items[0].Tables?
    && (Independent(s.items) || (FirstUnit(s.items) == [] && unit.key && unit.pid == VIDEO_PID))
  }

  /** One more item behind those of a file. */
  lemma ItemAdded(s: State, it: Content, unit: Content)
    requires unit.Unit? && Takes(s, unit)
    ensures
      var t := s.(items := s.items + [it]);
      if it.Unit? then (it == unit ==> OpenWell(t)) else Takes(t, unit)
  {
    FileSnoc(s.items, it);
    FirstUnitSnoc(s.items, it);
    assert (s.items + [it])[0] == s.items[0];
    hide FileBytes, Tiles, FirstUnit, ItemPackets, ItemCounters, Proper, CountersAfter;
  }

  lemma MuxedWell(cfg: Config, s: State, i: Input)
    requires Sound(i) && i.Frame? && Takes(s, i.unit)
    ensures
      var t := Muxed(cfg, s, i);
      && t.open && OpenWell(t)
      && UnitsIn(t.items) == UnitsIn(s.items) + [i.unit]
      && (t.segments, t.nextSeq, t.files, t.failed) == (s.segments, s.nextSeq, s.files, s.failed)
      && s.parts <= t.parts
  {
    hide FileBytes, Tiles, Independent, FirstUnit, UnitsIn, Muxes, Reaches, PartClosed, U64, Seconds, Parted;
    var tables := if i.tablesDue then [Tables(i.videoType, i.order2)] else [];
    var before := s.items + tables;
    assert s.items + [] == s.items;
    var s1 := s.(items := before);
    if i.tablesDue {
      ItemAdded(s, Tables(i.videoType, i.order2), i.unit);
      UnitsInSnoc(s.items, Tables(i.videoType, i.order2));
    }
    assert UnitsIn(before) == UnitsIn(s.items) by { assert UnitsIn(s.items) + [] == UnitsIn(s.items); }
    ItemAdded(s1, i.unit, i.unit);
    UnitsInSnoc(before, i.unit);
    var u := s1.(items := before + [i.unit], endDTS := if i.unit.dts > s.endDTS then i.unit.dts else s.endDTS);
    EndMoved(s1.(items := before + [i.unit]), u.endDTS);
    ClosedTiles(u, i.unit.dts);
    PartsOnly(cfg, u, i.unit.dts);
    hide Takes;
  }

  lemma EndMoved(s: State, endDTS: u64)
    ensures OpenWell(s) && s.open ==> OpenWell(s.(endDTS := endDTS)) && Parted(s.(endDTS := endDTS))
  {}

  function ClosedBy(cfg: Config, s: State, i: Input): seq<Closed>
    requires Sound(i) && (s.open ==> s.name.Named?)
  {
    if !s.failed && s.open && Starts(cfg, s, i) then [ClosedOf(cfg, s)] else []
  }

  function TakenBy(cfg: Config, s: State, i: Input): seq<Content>
    requires Sound(i)
  {
    if i.Frame? && !s.failed && (if Starts(cfg, s, i) then i.creates else s.open) then [i.unit] else []
  }

  lemma OpenedTakes(s: State, dts: u64, videoType: byte, order: seq<u16>, unit: Content)
    requires videoType in {0x1b, 0x24} && StreamOrder(order)
    requires unit.Unit? && unit.key && unit.pid == VIDEO_PID
    ensures Takes(Opened(s, dts, videoType, order), unit)
    ensures UnitsIn(Opened(s, dts, videoType, order).items) == []
  {
    hide FileBytes, FirstUnit, UnitsIn, Independent;
    OneTable(Tables(videoType, order));
  }

  lemma OneTable(tables: Content)
    requires tables.Tables?
    ensures FirstUnit([tables]) == [] && UnitsIn([tables]) == []
  {
    hide Proper;
    var one: seq<Content> := [tables];
    var none: seq<Content> := [];
    assert one[1..] == none && none + one == one;
    assert FirstUnit(none) == [] && UnitsIn(none) == [];
    UnitsInSnoc(none, tables);
  }

  lemma StepRepresents(cfg: Config, s: State, done: seq<Closed>, taken: seq<Content>, i: Input)
    requires Sound(i) && Represents(cfg, s, done, taken)
    ensures Represents(cfg, Step(cfg, s, i), done + ClosedBy(cfg, s, i), taken + TakenBy(cfg, s, i))
  {
    hide Recorded, Clocked, Kept, Sequenced, Infos, Independent, Parted, UnitsIn, UnitsOf, Finalised, ClosedOf, Opened, Muxed, FirstUnit, Reaches;
    assert done + [] == done && taken + [] == taken;
    StepClocked(cfg, s, i);
    if i.Frame? && !s.failed {
      if Starts(cfg, s, i) {
        FinalisedRepresents(cfg, s, done, taken);
        FinalisedClosed(cfg, s);
        var base, closed := Finalised(cfg, s), done + ClosedBy(cfg, s, i);
        assert Represents(cfg, base, closed, taken);
        assert base.(failed := true).open == false;
        if i.creates {
          var t := Opened(base, i.unit.dts, i.videoType, i.order1);
          OpenedTakes(base, i.unit.dts, i.videoType, i.order1, i.unit);
          OpenedKeeps(base, i.unit.dts, i.videoType, i.order1);
          MuxedWell(cfg, t, i);
          assert UnitsOf(closed) + [] == UnitsOf(closed) && [] + [i.unit] == [i.unit];
        }
      } else if s.open {
        assert Takes(s, i.unit) by { OpenTakes(s, i.unit); }
        MuxedWell(cfg, s, i);
        assert UnitsOf(done) + UnitsIn(s.items) + [i.unit] == UnitsOf(done) + (UnitsIn(s.items) + [i.unit]);
      }
    }
  }

  lemma OpenTakes(s: State, unit: Content)
    requires s.open && OpenWell(s) && unit.Unit?
    ensures Takes(s, unit)
  {
    hide FileBytes, Tiles;
  }

  lemma OpenedKeeps(s: State, dts: u64, videoType: byte, order: seq<u16>)
    requires videoType in {0x1b, 0x24} && StreamOrder(order)
    ensures
      var t := Opened(s, dts, videoType, order);
      t.open && (t.segments, t.nextSeq, t.files, t.failed) == (s.segments, s.nextSeq, s.files, s.failed)
  {}

  predicate AllSound(inputs: seq<Input>) {
    forall k :: 0 <= k < |inputs| ==> Sound(inputs[k])
  }

  function RunOf(cfg: Config, s: State, inputs: seq<Input>): State
    requires AllSound(inputs) && (s.open ==> s.name.Named?)
    ensures RunOf(cfg, s, inputs).open ==> RunOf(cfg, s, inputs).name.Named?
    decreases |inputs|
  {
    if inputs == [] then s else RunOf(cfg, Step(cfg, s, inputs[0]), inputs[1..])
  }

  lemma SkipStays(cfg: Config, s: State)
    requires s.open ==> s.name.Named?
    ensures Step(cfg, s, Skip) == s
  {}

  lemma {:induction false} RunSnoc(cfg: Config, s: State, inputs: seq<Input>, i: Input)
    requires AllSound(inputs) && Sound(i) && (s.open ==> s.name.Named?)
    ensures AllSound(inputs + [i])
    ensures
      var t := RunOf(cfg, s, inputs);
      RunOf(cfg, s, inputs + [i]) == Step(cfg, t, i)
    decreases |inputs|
  {
    hide Step, Sound;
    var more := inputs + [i];
    if inputs == [] {
      assert more == [i] && more[1..] == [];
    } else {
      assert more[1..] == inputs[1..] + [i];
      RunSnoc(cfg, Step(cfg, s, inputs[0]), inputs[1..], i);
    }
  }

  function AllClosed(cfg: Config, s: State, inputs: seq<Input>): seq<Closed>
    requires AllSound(inputs) && (s.open ==> s.name.Named?)
    decreases |inputs|
  {
    if inputs == [] then [] else ClosedBy(cfg, s, inputs[0]) + AllClosed(cfg, Step(cfg, s, inputs[0]), inputs[1..])
  }

  function AllTaken(cfg: Config, s: State, inputs: seq<Input>): seq<Content>
    requires AllSound(inputs) && (s.open ==> s.name.Named?)
    decreases |inputs|
  {
    if inputs == [] then [] else TakenBy(cfg, s, inputs[0]) + AllTaken(cfg, Step(cfg, s, inputs[0]), inputs[1..])
  }

  lemma {:induction false} RunRepresents(cfg: Config, s: State, done: seq<Closed>, taken: seq<Content>, inputs: seq<Input>)
    requires AllSound(inputs) && (s.open ==> s.name.Named?) && Represents(cfg, s, done, taken)
    ensures
      Represents(cfg, RunOf(cfg, s, inputs), done + AllClosed(cfg, s, inputs), taken + AllTaken(cfg, s, inputs))
    decreases |inputs|
  {
    hide Represents, Step, ClosedBy, TakenBy, Sound;
    if inputs == [] {
      assert done + [] == done && taken + [] == taken;
    } else {
      var t := Step(cfg, s, inputs[0]);
      var closed, unit := ClosedBy(cfg, s, inputs[0]), TakenBy(cfg, s, inputs[0]);
      StepRepresents(cfg, s, done, taken, inputs[0]);
      RunRepresents(cfg, t, done + closed, taken + unit, inputs[1..]);
      Regroup(done, closed, AllClosed(cfg, t, inputs[1..]));
      Regroup(taken, unit, AllTaken(cfg, t, inputs[1..]));
    }
  }

  /**
    Over every run of the segmenter, and once more when it ends: segments are numbered consecutively,
    the window lists the last of them, just their files and the open one's are kept, each starts with
    tables and a video key frame and is tiled by its parts, and no unit from the first key frame on is
    lost or moved, unless a file cannot be created.
   */
  lemma SegmenterRuns(cfg: Config, inputs: seq<Input>)
    requires AllSound(inputs)
    ensures
      var s := RunOf(cfg, START, inputs);
      var done, taken := AllClosed(cfg, START, inputs), AllTaken(cfg, START, inputs);
      && Represents(cfg, s, done, taken)
      && (s.open ==> s.name.Named?)
      && Represents(cfg, Finalised(cfg, s), if s.open then done + [ClosedOf(cfg, s)] else done, taken)
      && taken <= FromKey(inputs) && (!s.failed ==> taken == FromKey(inputs))
  {
    TakenAre(cfg, START, inputs);
    assert Represents(cfg, START, [], []) by { assert Infos([], 0) == []; }
    RunRepresents(cfg, START, [], [], inputs);
    hide Represents;
    var done, taken := AllClosed(cfg, START, inputs), AllTaken(cfg, START, inputs);
    assert [] + done == done && [] + taken == taken;
    FinalisedRepresents(cfg, RunOf(cfg, START, inputs), done, taken);
  }

  // ----- What is taken in -----

  function UnitsFed(inputs: seq<Input>): seq<Content> {
    if inputs == [] then [] else (if inputs[0].Frame? then [inputs[0].unit] else []) + UnitsFed(inputs[1..])
  }

  /** The units from the first key frame on. */
  function FromKey(inputs: seq<Input>): seq<Content>
    requires AllSound(inputs)
  {
    if inputs == [] then []
    else if inputs[0].Frame? && inputs[0].unit.key then UnitsFed(inputs)
    else FromKey(inputs[1..])
  }

  lemma StepTakes(cfg: Config, s: State, i: Input)
    requires Sound(i) && (s.open ==> s.name.Named?)
    ensures
      var t := Step(cfg, s, i);
      && t.failed == (s.failed || (Starts(cfg, s, i) && !i.creates))
      && (!t.failed && s.open ==> t.open)
      && (!t.failed && !s.open ==> (t.open <==> i.Frame? && i.unit.key))
      && (s.open && i.Frame? && !t.failed ==> TakenBy(cfg, s, i) == [i.unit])
      && (!s.open && !t.failed ==> TakenBy(cfg, s, i) == if i.Frame? && i.unit.key then [i.unit] else [])
      && (i.Skip? || t.failed ==> TakenBy(cfg, s, i) == [])
  {
    hide Finalised, Muxed, Reaches, Opened;
    if i.Frame? && !s.failed {
      if Starts(cfg, s, i) {
        FinalisedClosed(cfg, s);
        var base := Finalised(cfg, s);
        OpenedOpen(base, i.unit.dts, i.videoType, i.order1);
        MuxedOpen(cfg, Opened(base, i.unit.dts, i.videoType, i.order1), i);
      } else if s.open {
        MuxedOpen(cfg, s, i);
      }
    }
  }

  /** Nothing is taken in any more once a file could not be created. */
  lemma {:induction false} FailedTakes(cfg: Config, s: State, inputs: seq<Input>)
    requires AllSound(inputs) && s.failed && (s.open ==> s.name.Named?)
    ensures AllTaken(cfg, s, inputs) == [] && RunOf(cfg, s, inputs).failed
    decreases |inputs|
  {
    hide Step, TakenBy, Starts, Sound;
    if inputs != [] {
      StepTakes(cfg, s, inputs[0]);
      FailedTakes(cfg, Step(cfg, s, inputs[0]), inputs[1..]);
    }
  }

  /**
    What is taken in over a run: every unit from the first key frame on, or the first of these when a file
    could not be created, which is the only way to fail.
   */
  lemma {:induction false} TakenAre(cfg: Config, s: State, inputs: seq<Input>)
    requires AllSound(inputs) && !s.failed && (s.open ==> s.name.Named?)
    ensures
      var want := if s.open then UnitsFed(inputs) else FromKey(inputs);
      && AllTaken(cfg, s, inputs) <= want
      && (!RunOf(cfg, s, inputs).failed ==> AllTaken(cfg, s, inputs) == want)
    ensures RunOf(cfg, s, inputs).failed ==> exists k :: 0 <= k < |inputs| && inputs[k].Frame? && inputs[k].unit.key && !inputs[k].creates
    decreases |inputs|
  {
    hide Step, TakenBy, Reaches;
    if inputs != [] {
      var t := Step(cfg, s, inputs[0]);
      StepTakes(cfg, s, inputs[0]);
      if t.failed {
        FailedTakes(cfg, t, inputs[1..]);
      } else {
        TakenAre(cfg, t, inputs[1..]);
        if RunOf(cfg, t, inputs[1..]).failed {
          var k :| 0 <= k < |inputs[1..]| && inputs[1..][k].Frame? && inputs[1..][k].unit.key && !inputs[1..][k].creates;
          assert inputs[k + 1] == inputs[1..][k];
        }
      }
    }
  }

  /** What a turn that takes a unit in does to the open file: a new one starts with tables for the stream's type. */
  lemma FileGrows(cfg: Config, s: State, i: Input)
    requires Sound(i) && i.Frame? && (s.open ==> s.name.Named?) && TakenBy(cfg, s, i) == [i.unit]
    ensures
      var tables := if i.tablesDue then [Tables(i.videoType, i.order2)] else [];
      Step(cfg, s, i).items == (if Starts(cfg, s, i) then [Tables(i.videoType, i.order1)] else s.items) + tables + [i.unit]
  {
    hide Finalised, Reaches, FileBytes, Muxes;
    FinalisedClosed(cfg, s);
    PartsOnly(cfg, s, i.unit.dts);
  }

  // ----- What players see -----

  /** The newest media sequence number and part that `WaitForPlaylist` knows of. */
  function Latest(s: State): (int, int) {
    if s.name.Named? then (s.nextSeq, |s.parts| - 1) else (s.nextSeq - 1, -1)
  }

  predicate NotAfter(a: (int, int), b: (int, int)) {
    a.0 < b.0 || (a.0 == b.0 && a.1 <= b.1)
  }

  /** The condition under which a request for a part is answered. */
  predicate Answered(s: State, wantMSN: int, wantPart: int) {
    wantMSN < Latest(s).0 || (wantMSN == Latest(s).0 && wantPart <= Latest(s).1)
  }

  /** From one turn of the loop to the next, what could be answered still can be. */
  lemma NeverTakenBack(cfg: Config, s: State, done: seq<Closed>, taken: seq<Content>, i: Input)
    requires Sound(i) && Represents(cfg, s, done, taken) && !Step(cfg, s, i).failed
    ensures NotAfter(Latest(s), Latest(Step(cfg, s, i)))
    ensures forall wantMSN, wantPart :: Answered(s, wantMSN, wantPart) ==> Answered(Step(cfg, s, i), wantMSN, wantPart)
  {
    hide Recorded, Clocked, Kept, Sequenced, Infos, Independent, Parted, UnitsIn, UnitsOf, Finalised, ClosedOf, Opened, Muxed, FirstUnit, Reaches;
    if i.Frame? && !s.failed {
      if Starts(cfg, s, i) {
        FinalisedNext(cfg, s, done, taken);
        FinalisedClosed(cfg, s);
        var base := Finalised(cfg, s);
        OpenedTakes(base, i.unit.dts, i.videoType, i.order1, i.unit);
        OpenedKeeps(base, i.unit.dts, i.videoType, i.order1);
        OpenedOpen(base, i.unit.dts, i.videoType, i.order1);
        MuxedWell(cfg, Opened(base, i.unit.dts, i.videoType, i.order1), i);
      } else if s.open {
        OpenTakes(s, i.unit);
        MuxedWell(cfg, s, i);
      }
    }
  }

  lemma FinalisedNext(cfg: Config, s: State, done: seq<Closed>, taken: seq<Content>)
    requires Represents(cfg, s, done, taken)
    ensures
      var t := Finalised(cfg, s);
      && t.nextSeq == s.nextSeq + (if s.open then 1 else 0) && t.name == Unnamed
  {
    hide Recorded, Clocked, Kept, Sequenced, Infos, Independent, Parted, UnitsIn, UnitsOf, Finalised;
    if s.open {
      FinalisedIs(cfg, s, done, taken);
    } else {
      FinalisedClosed(cfg, s);
    }
  }

  /** When the segmenter ends with a part published, that part can no longer be asked for, and only then. */
  lemma TakenBackAtEnd(cfg: Config, s: State, done: seq<Closed>, taken: seq<Content>)
    requires Represents(cfg, s, done, taken)
    ensures NotAfter(Latest(s), Latest(Finalised(cfg, s))) <==> s.parts == []
    ensures s.parts != [] ==> Answered(s, s.nextSeq, 0) && !Answered(Finalised(cfg, s), s.nextSeq, 0)
  {
    hide Recorded, Clocked, Kept, Sequenced, Infos, Independent, Parted, UnitsIn, UnitsOf, Finalised;
    FinalisedNext(cfg, s, done, taken);
  }

  /** The preload hint points at the byte behind the published parts; the playlist starts at the oldest segment kept. */
  lemma PlaylistIs(cfg: Config, s: State, done: seq<Closed>, taken: seq<Content>)
    requires Represents(cfg, s, done, taken)
    ensures s.open ==> Preload(s.parts) == s.partStartOffset && s.partStartOffset % 188 == 0
    ensures s.segments != [] ==> s.segments[0].seqNo == Oldest(cfg, |done|)
  {
    hide Recorded, Clocked, FileBytes, Preload, Kept, Independent, UnitsIn, UnitsOf;
    if s.open {
      PreloadIs(s.parts, s.partStartOffset);
    }
  }

  /** A closed segment's parts reach its end unless its last bytes came at the very time its last part ended. */
  lemma Covered(cfg: Config, s: State, done: seq<Closed>, taken: seq<Content>)
    requires Represents(cfg, s, done, taken) && s.open
    ensures
      var c := ClosedOf(cfg, s);
      c.covered == |FileBytes(c.items)|
      <==> s.partStartOffset == |FileBytes(s.items)| || (cfg.lowLatency && U64(s.endDTS - s.partStartDTS) != 0)
  {
    hide Recorded, Clocked, FileBytes, Kept, Sequenced, Infos, Independent, UnitsIn, UnitsOf, Tiles, PartClosed, U64;
    ClosedTiles(s, s.endDTS);
    assert s.partStartOffset <= |FileBytes(s.items)|;
  }

  lemma ReachesIs(ticks: u64, ns: nat)
    ensures Reaches(ticks, ns) <==> ticks * 100_000 >= ns * 9
  {
    assert Seconds(ticks) * 1000000000.0 == ticks as real * 100000.0 / 9.0;
    assert Reaches(ticks, ns) <==> ticks as real * 100000.0 >= ns as real * 9.0;
  }

  /** A unit always adds bytes, whether or not it muxes to its end. */
  lemma UnitAddsBytes(items: seq<Content>, unit: Content)
    requires unit.Unit?
    ensures |FileBytes(items + [unit])| > |FileBytes(items)|
  {
    hide *;
    var more := items + [unit];
    SegmentContinuity(items);
    SegmentContinuity(more);
    FramedFile(items);
    FramedFile(more);
    PacketsSnoc(items, unit, map[]);
    SomePackets(unit, CountersAfter(items, map[]));
  }

  lemma FramedFile(items: seq<Content>)
    requires R.AllFramed(SegmentPackets(items, map[]))
    ensures |FileBytes(items)| == 188 * |SegmentPackets(items, map[])|
  {
    hide SegmentPackets, R.AllFramed, Flatten;
    FramedLength(SegmentPackets(items, map[]));
  }

  lemma SomePackets(unit: Content, cc: map<u16, byte>)
    requires unit.Unit?
    ensures ItemPackets(unit, cc) != []
  {
    hide MuxRun, UnitBytes;
    RunStep(unit.pid, CounterOf(cc, unit.pid), true, unit.key, unit.dts, UnitBytes(unit), 0);
  }

  function Age(dts: u64, start: u64): u64 { (dts - start) % 0x1_0000_0000_0000_0000 }

  lemma PartClosedIs(s: State, endDTS: u64)
    requires s.open && |FileBytes(s.items)| > s.partStartOffset
    ensures
      var age := Age(endDTS, s.partStartDTS);
      PartClosed(s, endDTS)
      == if age == 0 then s
         else
           s.(parts := s.parts + [Part(age as real / 90000.0, s.parts == [], s.partStartOffset, |FileBytes(s.items)| - s.partStartOffset)],
              partStartDTS := endDTS, partStartOffset := |FileBytes(s.items)|)
  {
    Ticks(U64(endDTS - s.partStartDTS));
    WrappedIs(endDTS - s.partStartDTS);
    hide FileBytes, Seconds, U64;
  }

  /** The items of the file when a unit has been muxed, tables before it when they are due. */
  function Before(s: State, i: Input): seq<Content>
    requires Sound(i) && i.Frame?
  {
    s.items + if i.tablesDue then [Tables(i.videoType, i.order2)] else []
  }

  lemma BeforeLonger(s: State, i: Input)
    requires Sound(i) && i.Frame?
    ensures |FileBytes(Before(s, i))| >= |FileBytes(s.items)|
  {
    hide FileBytes;
    assert s.items + [] == s.items;
    if i.tablesDue {
      FileSnoc(s.items, Tables(i.videoType, i.order2));
    }
  }

  /**
    A unit that muxes closes the part exactly when it comes the part target or more after the part's start,
    modulo 2^64, and not at that time itself; the part then is the bytes since it started.
   */
  lemma PartEnds(cfg: Config, s: State, i: Input)
    requires Sound(i) && i.Frame? && s.open && Parted(s)
    ensures
      var t := Muxed(cfg, s, i);
      var age := Age(i.unit.dts, s.partStartDTS);
      var end := |FileBytes(t.items)|;
      && t.items == Before(s, i) + [i.unit] && end > s.partStartOffset
      && (t.parts, t.partStartDTS, t.partStartOffset)
         == if cfg.lowLatency && Muxes(Before(s, i), i.unit) && age != 0 && age * 100_000 >= cfg.partTargetNs * 9
            then (s.parts + [Part(age as real / 90000.0, s.parts == [], s.partStartOffset, end - s.partStartOffset)], i.unit.dts, end)
            else (s.parts, s.partStartDTS, s.partStartOffset)
  {
    hide FileBytes, Parted, Muxed, PartClosed, Muxes, Age, Mid, Before, Tiles;
    PartedMeans(s);
    UnitAddsBytes(Before(s, i), i.unit);
    BeforeLonger(s, i);
    MuxedIs(cfg, s, i);
    var u := Mid(s, i);
    PartClosedIs(u, i.unit.dts);
  }

  /** The state when the unit is in the file and the end is moved. */
  function Mid(s: State, i: Input): State
    requires Sound(i) && i.Frame?
  {
    s.(items := Before(s, i) + [i.unit], endDTS := if i.unit.dts > s.endDTS then i.unit.dts else s.endDTS)
  }

  lemma MuxedIs(cfg: Config, s: State, i: Input)
    requires Sound(i) && i.Frame?
    ensures
      var age := Age(i.unit.dts, s.partStartDTS);
      && Mid(s, i) == s.(items := Before(s, i) + [i.unit], endDTS := Mid(s, i).endDTS)
      && Muxed(cfg, s, i)
         == if !Muxes(Before(s, i), i.unit) then s.(items := Before(s, i) + [i.unit])
            else if cfg.lowLatency && age * 100_000 >= cfg.partTargetNs * 9 then PartClosed(Mid(s, i), i.unit.dts)
            else Mid(s, i)
  {
    ReachesIs(U64(i.unit.dts - s.partStartDTS), cfg.partTargetNs);
    WrappedIs(i.unit.dts - s.partStartDTS);
    hide Reaches, U64, PartClosed, Muxes;
  }

  lemma Ticks(ticks: u64)
    ensures Seconds(ticks) == ticks as real / 90000.0
    ensures Seconds(ticks) <= 0.0 <==> ticks == 0
  {}

  lemma WrappedIs(x: int)
    ensures U64(x) == x % 0x1_0000_0000_0000_0000
  {}

  /** With the 32-bit times that tags have, late enough is the target or more after the start, or before it. */
  lemma Late(dts: u64, start: u64, ns: nat)
    requires dts < 0x1_0000_0000 && start < 0x1_0000_0000 && ns <= 0xffff_ffff_ffff_ffff
    ensures
      (dts - start) % 0x1_0000_0000_0000_0000 * 100_000 >= ns * 9 <==> dts < start || (dts - start) * 100_000 >= ns * 9
  {
    WrappedTicks(dts, start);
  }

  /**
    Over every run, an open segment ends at exactly the key frames that come the target or more after its
    first unit, modulo 2^64; with the 32-bit times that tags have, that is late enough, or before that unit.
   */
  lemma SegmentEnds(cfg: Config, inputs: seq<Input>, i: Input)
    requires AllSound(inputs) && Sound(i) && i.Frame? && RunOf(cfg, START, inputs).open
    ensures
      var s := RunOf(cfg, START, inputs);
      var first := FirstUnit(s.items);
      && first != [] && first[0].Unit?
      && var start := first[0].dts;
      && (Starts(cfg, s, i) <==> i.unit.key && (i.unit.dts - start) % 0x1_0000_0000_0000_0000 * 100_000 >= cfg.targetNs * 9)
      && (i.unit.dts < 0x1_0000_0000 && start < 0x1_0000_0000 && cfg.targetNs <= 0xffff_ffff_ffff_ffff ==>
            (Starts(cfg, s, i) <==> i.unit.key && (i.unit.dts < start || (i.unit.dts - start) * 100_000 >= cfg.targetNs * 9)))
  {
    hide RunOf, Represents, FirstUnit, Reaches, Starts, AllClosed, AllTaken, Finalised, ClosedOf, Clocked;
    var s := RunOf(cfg, START, inputs);
    SegmenterRuns(cfg, inputs);
    OpenClocked(cfg, s, AllClosed(cfg, START, inputs), AllTaken(cfg, START, inputs));
    FirstTime(s);
    StartsWhen(cfg, s, i);
    if i.unit.dts < 0x1_0000_0000 && s.startDTS < 0x1_0000_0000 && cfg.targetNs <= 0xffff_ffff_ffff_ffff {
      Late(i.unit.dts, s.startDTS, cfg.targetNs);
    }
  }

  lemma FirstTime(s: State)
    requires Clocked(s)
    ensures FirstUnit(s.items) != [] && FirstUnit(s.items)[0].Unit? && FirstUnit(s.items)[0].dts == s.startDTS
  {
    hide Spans, LatestTime, FirstUnit;
  }

  lemma StartsWhen(cfg: Config, s: State, i: Input)
    requires Sound(i) && i.Frame? && s.open
    ensures Starts(cfg, s, i) <==> i.unit.key && (i.unit.dts - s.startDTS) % 0x1_0000_0000_0000_0000 * 100_000 >= cfg.targetNs * 9
  {
    ReachesIs(U64(i.unit.dts - s.startDTS), cfg.targetNs);
    hide Reaches;
  }

  lemma OpenClocked(cfg: Config, s: State, done: seq<Closed>, taken: seq<Content>)
    requires Represents(cfg, s, done, taken) && s.open
    ensures Clocked(s)
  {
    hide Clocked, Recorded, Kept, Sequenced, Infos, Independent, Parted, UnitsIn, UnitsOf;
  }

  /** Every file kept, if all its units survive, is read back by a fresh demultiplexer: its units and nothing else. */
  lemma FilesDemux(cfg: Config, s: State, done: seq<Closed>, taken: seq<Content>, k: nat)
    requires Represents(cfg, s, done, taken) && k in s.files
    requires k < |done| && forall it :: it in done[k].items ==> Survives(it)
    ensures
      var items := done[k].items;
      var video, audio := Units(items, VIDEO_PID), Units(items, AUDIO_PID);
      var r := D.FeedAll(D.INITIAL, s.files[k]);
      && r.Some? && R.Learned(r.value)
      && r.value.units == AccessUnits(AllButLast(video)) && r.value.frames == AudioFrames(AllButLast(audio))
      && r.value.video == LastOr(video, D.INITIAL.video) && r.value.audio == LastOr(audio, D.INITIAL.audio)
  {
    hide Recorded, Clocked, D.FeedAll, Units, SegmentPackets, Survives, Proper, UnitsIn, UnitsOf, Infos, Tiles, FirstUnit;
    WrittenRoundTrip(done[k].items, map[]);
  }
}