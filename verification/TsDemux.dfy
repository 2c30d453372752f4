/**
  The transport-stream demultiplexer of libsrt/tsdemux.go. The class is the source's
  `Demuxer`; the functions say on values what one packet does to its state.
 */
module TsDemux {
  import opened Bytes
  import opened Wrappers

  const TS_PACKET_SIZE: int := 188

  datatype AccessUnit = AccessUnit(pts: u64, dts: u64, key: bool, nal: seq<byte>)
  datatype AudioFrame = AudioFrame(pts: u64, data: seq<byte>)

  // ----- PES headers -----

  datatype PesHeader = PesHeader(pts: u64, dts: u64, body: seq<byte>)

  function Groups(b0: int, b1: int, b2: int, b3: int, b4: int): int {
    b0 / 2 % 8 * 0x4000_0000 + b1 * 0x40_0000 + b2 / 2 * 0x8000 + b3 * 0x80 + b4 / 2
  }

  /** A 33-bit time out of five bytes; fewer give zero. */
  function ReadPTS(b: seq<byte>): (t: u64)
    ensures t < 0x2_0000_0000
  {
    if |b| < 5 then 0 else Groups(b[0], b[1], b[2], b[3], b[4])
  }

  function ParsePESHeader(b: seq<byte>): (r: Option<PesHeader>) {
    if |b| < 9 then None
    else if b[0] != 0x00 || b[1] != 0x00 || b[2] != 0x01 then None
    else
      var flag := b[7] / 0x40;
      var hdrLen := b[8] as int;
      if 9 + hdrLen > |b| then None
      else
        var body := b[9 + hdrLen..];
        if flag == 2 then
          if hdrLen < 5 then None
          else
            var pts := ReadPTS(b[9..14]);
            Some(PesHeader(pts, pts, body))
        else if flag == 3 then
          if hdrLen < 10 then None else Some(PesHeader(ReadPTS(b[9..14]), ReadPTS(b[14..19]), body))
        else Some(PesHeader(0, 0, body))
  }

  // ----- Key frames -----

  /** The scan for a start code with an IDR slice behind it, from index i on. */
  predicate KeyFrom(buf: seq<byte>, i: nat)
    decreases |buf| - i
  {
    if i + 4 >= |buf| then false
    else if buf[i] == 0 && buf[i + 1] == 0 && buf[i + 2] == 1 then
      buf[i + 3] % 0x20 == 5 || KeyFrom(buf, i + 4)
    else if buf[i] == 0 && buf[i + 1] == 0 && buf[i + 2] == 0 && buf[i + 3] == 1 then
      buf[i + 4] % 0x20 == 5 || KeyFrom(buf, i + 5)
    else KeyFrom(buf, i + 1)
  }

  method ContainsAnnexBKeyframe(buf: seq<byte>) returns (key: bool)
    ensures key == KeyFrom(buf, 0)
  {
    var i := 0;
    while i + 4 < |buf|
      invariant 0 <= i
      invariant KeyFrom(buf, 0) == KeyFrom(buf, i)
    {
      if buf[i] == 0 && buf[i + 1] == 0 && buf[i + 2] == 1 {
        if buf[i + 3] % 0x20 == 5 {
          return true;
        }
        i := i + 3;
      } else if buf[i] == 0 && buf[i + 1] == 0 && buf[i + 2] == 0 && buf[i + 3] == 1 {
        if buf[i + 4] % 0x20 == 5 {
          return true;
        }
        i := i + 4;
      }
      i := i + 1;
    }
    return false;
  }

  // ----- The state and what a payload does to it -----

  /** A unit in the making. */
  datatype Partial = Partial(buf: seq<byte>, pts: u64, dts: u64)

  datatype State = State(
    pmtPID: u16, videoPID: u16, audioPID: u16,
    video: Partial, units: seq<AccessUnit>,
    audio: Partial, frames: seq<AudioFrame>)

  const INITIAL: State := State(0, 0, 0, Partial([], 0, 0), [], Partial([], 0, 0), [])

  /** A new unit starts with a header that parses; one that does not leaves the buffer as it is. */
  function Extend(p: Partial, pusi: bool, payload: seq<byte>): Partial {
    if !pusi then p.(buf := p.buf + payload)
    else
      var h := ParsePESHeader(payload);
      if h.None? then p else Partial(h.value.body, h.value.pts, h.value.dts)
  }

  /** The unit that a start completes. */
  predicate Completes(p: Partial, pusi: bool) {
    pusi && |p.buf| > 0
  }

  function Remaining(p: Partial, pusi: bool): Partial {
    if Completes(p, pusi) then p.(buf := []) else p
  }

  function ToAccessUnit(p: Partial): AccessUnit {
    AccessUnit(p.pts, p.dts, KeyFrom(p.buf, 0), p.buf)
  }

  function FeedVideo(s: State, pusi: bool, payload: seq<byte>): State {
    s.(video := Extend(Remaining(s.video, pusi), pusi, payload),
       units := s.units + if Completes(s.video, pusi) then [ToAccessUnit(s.video)] else [])
  }

  /** The audio side keeps no decoding time. */
  function FeedAudio(s: State, pusi: bool, payload: seq<byte>): State {
    s.(audio := Extend(Remaining(s.audio, pusi), pusi, payload).(dts := 0),
       frames := s.frames + if Completes(s.audio, pusi) then [AudioFrame(s.audio.pts, s.audio.buf)] else [])
  }

  /** The PID of the first program that is not the network table. */
  function FirstProgram(body: seq<byte>, off: nat): Option<u16>
    decreases |body| - off
  {
    if off + 4 > |body| - 4 then None
    else if Get16(body[off..off + 2]) != 0 then Some(Get16(body[off + 2..off + 4]) % 0x2000)
    else FirstProgram(body, off + 4)
  }

  function ParsePAT(s: State, payload: seq<byte>): State {
    if |payload| < 2 then s
    else
      var pointer := payload[0] as int;
      if 1 + pointer + 8 > |payload| then s
      else
        var pid := FirstProgram(payload[1 + pointer..], 8);
        if pid.Some? then s.(pmtPID := pid.value) else s
  }

  /** The stream loop of a PMT section that ends at `end`; later entries overrule earlier ones. */
  function Streams(s: State, body: seq<byte>, off: nat, end: nat): State
    requires end <= |body|
    decreases end - off
  {
    if off + 5 > end - 4 then s
    else
      var pid := Get16(body[off + 1..off + 3]) % 0x2000;
      var esInfoLen := Get16(body[off + 3..off + 5]) % 0x1000;
      Streams(Noted(s, body[off], pid), body, off + 5 + esInfoLen, end)
  }

  /** One stream of the table, by its type. */
  function Noted(s: State, streamType: byte, pid: u16): State {
    if streamType == 0x1b || streamType == 0x24 then s.(videoPID := pid)
    else if streamType == 0x0f then s.(audioPID := pid)
    else s
  }

  lemma StreamsDone(s: State, body: seq<byte>, off: nat, end: nat)
    requires off + 5 > end - 4 && end <= |body|
    ensures Streams(s, body, off, end) == s
  {}

  lemma StreamsStep(s: State, body: seq<byte>, off: nat, end: nat)
    requires off + 5 <= end - 4 && end <= |body|
    ensures
      var pid := Get16(body[off + 1..off + 3]) % 0x2000;
      Streams(s, body, off, end)
      == Streams(Noted(s, body[off], pid), body, off + 5 + Get16(body[off + 3..off + 5]) % 0x1000, end)
  {}

  /** Nothing is returned where the source's slice expression is out of range. */
  function ParsePMT(s: State, payload: seq<byte>): Option<State> {
    if |payload| < 2 then Some(s)
    else
      var pointer := payload[0] as int;
      if 1 + pointer > |payload| then None
      else
        var body := payload[1 + pointer..];
        if |body| < 12 then Some(s)
        else
          var sectionLen := Get16(body[1..3]) % 0x1000 + 3;
          var end := if sectionLen > |body| then |body| else sectionLen;
          Some(Streams(s, body, 12 + Get16(body[10..12]) % 0x1000, end))
  }

  // ----- Packets -----

  function PidOf(pkt: seq<byte>): u16
    requires |pkt| == 188
  {
    pkt[1] as int % 0x20 * 0x100 + pkt[2] as int
  }

  predicate StartOf(pkt: seq<byte>)
    requires |pkt| == 188
  {
    pkt[1] / 0x40 % 2 == 1
  }

  /** What follows the header and the adaptation field. */
  function PayloadOf(pkt: seq<byte>): Option<seq<byte>>
    requires |pkt| == 188
  {
    var control := pkt[3] / 0x10 % 4;
    var off := 4 + if control == 2 || control == 3 then 1 + pkt[4] as int else 0;
    if off > 188 || control == 0 || control == 2 then None else Some(pkt[off..])
  }

  function Dispatch(s: State, pid: u16, pusi: bool, payload: seq<byte>): Option<State> {
    if pid == 0 then Some(ParsePAT(s, payload))
    else if pid == s.pmtPID then ParsePMT(s, payload)
    else if pid == s.videoPID then Some(FeedVideo(s, pusi, payload))
    else if pid == s.audioPID then Some(FeedAudio(s, pusi, payload))
    else Some(s)
  }

  function Step(s: State, pkt: seq<byte>): Option<State>
    requires |pkt| == 188
  {
    if PayloadOf(pkt).None? then Some(s) else Dispatch(s, PidOf(pkt), StartOf(pkt), PayloadOf(pkt).value)
  }

  /** All whole packets of a datagram, up to the first without a sync byte. */
  function FeedAll(s: State, buf: seq<byte>): Option<State>
    decreases |buf|
  {
    if |buf| < 188 || buf[0] != 0x47 then Some(s)
    else
      var next := Step(s, buf[..188]);
      if next.None? then None else FeedAll(next.value, buf[188..])
  }

  class Demuxer {
    var pmtPID: u16
    var videoPID: u16
    var audioPID: u16
    var videoBuf: seq<byte>
    var videoTS: u64
    var videoDTS: u64
    var audioBuf: seq<byte>
    var audioTS: u64
    var onVideo: seq<AccessUnit>  // the calls of the OnVideo handler so far
    var onAudio: seq<AudioFrame>  // the calls of the OnAudio handler so far

    constructor ()
      ensures Now() == INITIAL
    {
      pmtPID, videoPID, audioPID := 0, 0, 0;
      videoBuf, videoTS, videoDTS := [], 0, 0;
      audioBuf, audioTS := [], 0;
      onVideo, onAudio := [], [];
    }

    ghost function Now(): State
      reads this
    {
      State(pmtPID, videoPID, audioPID, Partial(videoBuf, videoTS, videoDTS), onVideo, Partial(audioBuf, audioTS, 0), onAudio)
    }

    method FlushVideo()
      modifies `videoBuf, `onVideo
      ensures videoBuf == [] && onVideo == old(onVideo) + [ToAccessUnit(old(Now().video))]
    {
      var key := ContainsAnnexBKeyframe(videoBuf);
      var au := AccessUnit(videoTS, videoDTS, key, videoBuf);
      videoBuf := [];
      onVideo := onVideo + [au];
    }

    method FeedVideoPayload(pusi: bool, payload: seq<byte>)
      modifies this
      ensures Now() == FeedVideo(old(Now()), pusi, payload)
    {
      if pusi && |videoBuf| > 0 {
        FlushVideo();
      }
      if pusi {
        var h := ParsePESHeader(payload);
        if h.None? {
          return;
        }
        videoTS := h.value.pts;
        videoDTS := h.value.dts;
        videoBuf := h.value.body;
        return;
      }
      videoBuf := videoBuf + payload;
    }

    method FlushAudio()
      modifies `audioBuf, `onAudio
      ensures audioBuf == [] && onAudio == old(onAudio) + [AudioFrame(old(audioTS), old(audioBuf))]
    {
      onAudio := onAudio + [AudioFrame(audioTS, audioBuf)];
      audioBuf := [];
    }

    method FeedAudioPayload(pusi: bool, payload: seq<byte>)
      modifies this
      ensures Now() == FeedAudio(old(Now()), pusi, payload)
    {
      if pusi && |audioBuf| > 0 {
        FlushAudio();
      }
      if pusi {
        var h := ParsePESHeader(payload);
        if h.None? {
          return;
        }
        audioTS := h.value.pts;
        audioBuf := h.value.body;
        return;
      }
      audioBuf := audioBuf + payload;
    }

    method ReadPAT(payload: seq<byte>)
      modifies `pmtPID
      ensures Now() == ParsePAT(old(Now()), payload)
    {
      if |payload| < 2 {
        return;
      }
      var pointer := payload[0] as int;
      if 1 + pointer + 8 > |payload| {
        return;
      }
      var body := payload[1 + pointer..];
      var off := 8;
      while off + 4 <= |body| - 4
        invariant 8 <= off
        invariant pmtPID == old(pmtPID)
        invariant FirstProgram(body, 8) == FirstProgram(body, off)
      {
        var programNumber := Get16(body[off..off + 2]);
        var pid := Get16(body[off + 2..off + 4]) % 0x2000;
        if programNumber != 0 {
          pmtPID := pid;
          return;
        }
        off := off + 4;
      }
    }

    /** Returns false where the source's slice expression is out of range. */
    method ReadPMT(payload: seq<byte>) returns (ok: bool)
      modifies `videoPID, `audioPID
      ensures ok <==> ParsePMT(old(Now()), payload).Some?
      ensures ok ==> Some(Now()) == ParsePMT(old(Now()), payload)
    {
      if |payload| < 2 {
        return true;
      }
      var pointer := payload[0] as int;
      if 1 + pointer > |payload| {
        return false;
      }
      var body := payload[1 + pointer..];
      if |body| < 12 {
        return true;
      }
      var sectionLen := Get16(body[1..3]) % 0x1000 + 3;
      if sectionLen > |body| {
        sectionLen := |body|;
      }
      var progInfoLen := Get16(body[10..12]) % 0x1000;
      ReadStreams(body, 12 + progInfoLen, sectionLen);
      return true;
    }

    /** The stream loop. */
    method ReadStreams(body: seq<byte>, start: nat, sectionLen: nat)
      requires sectionLen <= |body|
      modifies `videoPID, `audioPID
      ensures Now() == Streams(old(Now()), body, start, sectionLen)
    {
      hide Streams, Get16;
      var off := start;
      while off + 5 <= sectionLen - 4
        invariant 0 <= off
        invariant Streams(old(Now()), body, start, sectionLen) == Streams(Now(), body, off, sectionLen)
      {
        StreamsStep(Now(), body, off, sectionLen);
        ghost var before := Now();
        var streamType := body[off];
        var streamPID := Get16(body[off + 1..off + 3]) % 0x2000;
        var esInfoLen := Get16(body[off + 3..off + 5]) % 0x1000;
        off := off + 5 + esInfoLen;
        if streamType == 0x1b || streamType == 0x24 {
          videoPID := streamPID;
        } else if streamType == 0x0f {
          audioPID := streamPID;
        }
        assert Now() == Noted(before, streamType, streamPID);
      }
      StreamsDone(Now(), body, off, sectionLen);
    }

    method Feed(buf: seq<byte>) returns (ok: bool)
      modifies this
      ensures ok <==> FeedAll(old(Now()), buf).Some?
      ensures ok ==> Some(Now()) == FeedAll(old(Now()), buf)
    {
      hide ParsePAT, ParsePMT, FeedVideo, FeedAudio;
      var rest := buf;
      ok := true;
      while |rest| >= TS_PACKET_SIZE
        invariant FeedAll(old(Now()), buf) == FeedAll(Now(), rest)
        decreases |rest|
      {
        var pkt := rest[..TS_PACKET_SIZE];
        ghost var before, all := Now(), rest;
        rest := rest[TS_PACKET_SIZE..];
        if pkt[0] != 0x47 {
          return;
        }
        var pid := pkt[1] as int % 0x20 * 0x100 + pkt[2] as int;
        var pusi := pkt[1] / 0x40 % 2 == 1;
        var afCtrl := pkt[3] / 0x10 % 4;
        var off := 4;
        if afCtrl == 2 || afCtrl == 3 {
          var afLen := pkt[4] as int;
          off := off + 1 + afLen;
          if off > TS_PACKET_SIZE {
            continue;
          }
        }
        if afCtrl == 0 || afCtrl == 2 {
          continue;
        }
        var payload := pkt[off..];
        assert PayloadOf(pkt) == Some(payload);
        if pid == 0 {
          ReadPAT(payload);
        } else if pid == pmtPID {
          ok := ReadPMT(payload);
          if !ok {
            return;
          }
        } else if pid == videoPID {
          FeedVideoPayload(pusi, payload);
        } else if pid == audioPID {
          FeedAudioPayload(pusi, payload);
        }
        assert Some(Now()) == Step(before, pkt);
      }
    }
  }
}
