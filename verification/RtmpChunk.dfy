/**
  RTMP chunks as librtmp/chunk.go writes and reads them (RTMP 1.0 section 5.3.1), on values:
  bytes behind a cursor are what is still unread.
 */
module RtmpChunk {
  import opened Bytes
  import opened Wrappers

  const MAX_TIMESTAMP: u32 := 0xFF_FFFF

  datatype Result<T> = Ok(value: T) | Err(error: Error)

  datatype Error = EndOfStream | InvalidFmt | InvalidCsid | InvalidMessageType | InvalidBody | ShortPayload | OutOfRange

  datatype Read<T> = Read(item: T, rest: seq<byte>)

  datatype Header = Header(timeStamp: u32, timeDelta: u32, length: u32, messageType: byte, streamID: u32, extended: bool)

  datatype Chunk = Chunk(fmt: byte, csid: u32, header: Header, payload: seq<byte>)

  datatype Basic = Basic(fmt: byte, csid: u32)

  function PutLE32(v: u32): (b: seq<byte>)
    ensures |b| == 4
  {
    [U8(v), U8(v / 0x100), U8(v / 0x100 / 0x100), v / 0x100 / 0x100 / 0x100]
  }

  function GetLE32(b: seq<byte>): u32
    requires |b| >= 4
  {
    ((b[3] as int * 0x100 + b[2] as int) * 0x100 + b[1] as int) * 0x100 + b[0] as int
  }

  lemma GetPutLE32(v: u32, tail: seq<byte>)
    ensures GetLE32(PutLE32(v) + tail) == v
  {}

  // ----- Writing -----

  function EncodeBasic(fmt: byte, csid: u32): (b: seq<byte>)
    requires fmt < 4 && csid >= 3
    ensures |b| >= 1
  {
    if csid < 64 then [fmt * 0x40 + csid]
    else if csid < 320 then [fmt * 0x40, csid - 64]
    else [fmt * 0x40 + 1] + Put16((csid - 64) % 0x1_0000)
  }

  function Inline(ts: u32): u32 {
    if ts >= MAX_TIMESTAMP then MAX_TIMESTAMP else ts
  }

  /** The time field of the header: absolute, or for formats 1 and 2 a difference. */
  function TimeField(fmt: byte, h: Header): u32 {
    if fmt == 1 || fmt == 2 then h.timeDelta else h.timeStamp
  }

  function EncodeFields(fmt: byte, h: Header): seq<byte>
    requires fmt < 4
  {
    var ts := Put24(Inline(TimeField(fmt, h)));
    if fmt == 0 then ts + Put24(h.length) + [h.messageType] + PutLE32(h.streamID)
    else if fmt == 1 then ts + Put24(h.length) + [h.messageType]
    else if fmt == 2 then ts
    else []
  }

  function EncodeExtension(fmt: byte, h: Header): seq<byte> {
    if TimeField(fmt, h) >= MAX_TIMESTAMP || (fmt == 3 && h.extended) then Put32(TimeField(fmt, h)) else []
  }

  function EncodeChunk(c: Chunk): Result<seq<byte>> {
    if c.csid < 3 then Err(InvalidCsid)
    else if c.fmt >= 4 then Err(InvalidFmt)
    else Ok(EncodeBasic(c.fmt, c.csid) + EncodeFields(c.fmt, c.header) + EncodeExtension(c.fmt, c.header) + c.payload)
  }

  function NewChunk(messageType: byte, length: u32, time: u32, fmt: byte, csid: u32, payload: seq<byte>): Chunk {
    Chunk(fmt, csid, Header(time, 0, length, messageType, 0, time >= MAX_TIMESTAMP), payload)
  }

  // ----- Reading -----

  function ReadN(s: seq<byte>, n: nat): (r: Result<Read<seq<byte>>>)
    ensures r.Ok? <==> n <= |s|
    ensures r.Ok? ==> |r.value.item| == n && |r.value.rest| == |s| - n
  {
    if n <= |s| then Ok(Read(s[..n], s[n..])) else Err(EndOfStream)
  }

  function ParseBasic(s: seq<byte>): (r: Result<Read<Basic>>)
    ensures r.Ok? ==> |r.value.rest| < |s| && r.value.item.fmt < 4
  {
    if |s| < 1 then Err(EndOfStream)
    else
      var fmt := s[0] / 0x40;
      var id := s[0] % 0x40;
      if id == 0 then
        if |s| < 2 then Err(EndOfStream) else Ok(Read(Basic(fmt, s[1] as int + 64), s[2..]))
      else if id == 1 then
        if |s| < 3 then Err(EndOfStream) else Ok(Read(Basic(fmt, s[1] as int + s[2] as int * 256 + 64), s[3..]))
      else Ok(Read(Basic(fmt, id), s[1..]))
  }

  /** The header's own fields, before any extended timestamp; the raw time field comes with them. */
  function ParseFields(s: seq<byte>, fmt: byte, last: Header): (r: Result<Read<(Header, u32)>>)
    requires fmt < 4
    ensures r.Ok? ==> |r.value.rest| <= |s|
  {
    if fmt == 0 then
      if |s| < 11 then Err(EndOfStream)
      else
        var raw := Get24(s);
        Ok(Read((Header(raw, 0, Get24(s[3..]), s[6], GetLE32(s[7..]), false), raw), s[11..]))
    else if fmt == 1 then
      if |s| < 7 then Err(EndOfStream)
      else
        var raw := Get24(s);
        Ok(Read((Header(0, raw, Get24(s[3..]), s[6], last.streamID, false), raw), s[7..]))
    else if fmt == 2 then
      if |s| < 3 then Err(EndOfStream)
      else
        var raw := Get24(s);
        Ok(Read((Header(0, raw, last.length, last.messageType, last.streamID, false), raw), s[3..]))
    else Ok(Read((last.(extended := false), if last.extended then MAX_TIMESTAMP else 0), s))
  }

  /** An extended timestamp replaces the field it extends; on a continuation it is only read. */
  function ParseExtension(s: seq<byte>, fmt: byte, h: Header, raw: u32): (r: Result<Read<Header>>)
    ensures r.Ok? ==> |r.value.rest| <= |s|
  {
    if raw != MAX_TIMESTAMP then Ok(Read(h, s))
    else if |s| < 4 then Err(EndOfStream)
    else
      var ext := Get32(s);
      var h' := h.(extended := true);
      Ok(Read(if fmt == 0 then h'.(timeStamp := ext) else if fmt == 1 || fmt == 2 then h'.(timeDelta := ext) else h', s[4..]))
  }

  /** Differences add to the time of the last chunk; a continuation that starts a message adds the last difference. */
  function Accumulate(fmt: byte, h: Header, last: Header, first: bool): Header {
    if fmt == 1 || fmt == 2 then h.(timeStamp := U32(last.timeStamp + h.timeDelta))
    else if fmt == 3 && first then h.(timeStamp := U32(h.timeStamp + h.timeDelta))
    else h
  }

  const NO_HEADER: Header := Header(0, 0, 0, 0, 0, false)

  function ParseHeader(s: seq<byte>, b: Basic, last: map<u32, Header>, first: bool): (r: Result<Read<Header>>)
    requires b.fmt < 4
    ensures r.Ok? ==> |r.value.rest| <= |s|
  {
    if b.fmt != 0 && b.csid !in last then Err(InvalidFmt)
    else
      var l := if b.csid in last then last[b.csid] else NO_HEADER;
      var f := ParseFields(s, b.fmt, l);
      if f.Err? then Err(f.error)
      else
        var (h, raw) := f.value.item;
        var e := ParseExtension(f.value.rest, b.fmt, h, raw);
        if e.Err? then Err(e.error) else Ok(Read(Accumulate(b.fmt, e.value.item, l, first), e.value.rest))
  }

  /** How much of the message this chunk carries; `remain` is nothing before its first chunk. */
  function PayloadSize(length: u32, peerMax: u32, remain: Option<u32>): u32 {
    var n := if length > peerMax then peerMax else length;
    if remain.Some? && n > remain.value then remain.value else n
  }

  function ParseChunk(s: seq<byte>, last: map<u32, Header>, peerMax: u32, remain: Option<u32>): (r: Result<Read<Chunk>>)
    ensures r.Ok? ==> |r.value.rest| + |r.value.item.payload| < |s|
    ensures r.Ok? && remain.Some? ==> |r.value.item.payload| <= remain.value
    ensures r.Ok? ==> |r.value.item.payload| <= r.value.item.header.length && |r.value.item.payload| <= peerMax
  {
    var b := ParseBasic(s);
    if b.Err? then Err(b.error)
    else
      var h := ParseHeader(b.value.rest, b.value.item, last, remain.None?);
      if h.Err? then Err(h.error)
      else
        var p := ReadN(h.value.rest, PayloadSize(h.value.item.length, peerMax, remain));
        if p.Err? then Err(p.error)
        else Ok(Read(Chunk(b.value.item.fmt, b.value.item.csid, h.value.item, p.value.item), p.value.rest))
  }

  // ----- One chunk, written and read -----

  /** The chunk stream ids that a basic header carries. */
  predicate Kept(csid: u32) {
    3 <= csid < 320 || (320 <= csid < 0x1_0040 && (csid - 64) / 0x100 == (csid - 64) % 0x100)
  }

  /**
    The three-byte form is written most significant byte first and read the other way round, so a chunk
    stream id survives exactly when it needs fewer bytes or its two bytes are the same.
   */
  lemma BasicSurvives(fmt: byte, csid: u32, rest: seq<byte>)
    requires fmt < 4 && csid >= 3
    ensures ParseBasic(EncodeBasic(fmt, csid) + rest) == Ok(Read(Basic(fmt, csid), rest)) <==> Kept(csid)
  {
    var s := EncodeBasic(fmt, csid) + rest;
    if csid < 64 {
      assert s[1..] == rest;
    } else if csid < 320 {
      assert s[2..] == rest;
    } else {
      var v := (csid - 64) % 0x1_0000;
      assert s[3..] == rest;
      assert s[1] == v / 0x100 && s[2] == v % 0x100;
      assert ParseBasic(s) == Ok(Read(Basic(fmt, v / 0x100 + v % 0x100 * 256 + 64), rest));
      SwapFixed(v, csid - 64);
    }
  }

  lemma SwapFixed(v: int, n: int)
    requires n >= 0 && v == n % 0x1_0000
    ensures v / 0x100 + v % 0x100 * 0x100 == n <==> n < 0x1_0000 && n / 0x100 == n % 0x100
  {
    var a, b := v / 0x100, v % 0x100;
    assert v == a * 0x100 + b;
    if a + b * 0x100 == n {
      assert n < 0x1_0000;
      assert n == v;
    }
  }

  lemma FieldsRead(h: Header, last: Header, rest: seq<byte>)
    requires h.length < 0x100_0000
    ensures ParseFields(EncodeFields(0, h) + rest, 0, last)
            == Ok(Read((Header(Inline(h.timeStamp), 0, h.length, h.messageType, h.streamID, false), Inline(h.timeStamp)), rest))
  {
    hide Put24, Get24, PutLE32, GetLE32;
    var s := EncodeFields(0, h) + rest;
    var a, b, c := Put24(Inline(h.timeStamp)), Put24(h.length), PutLE32(h.streamID);
    assert s == a + (b + ([h.messageType] + (c + rest)));
    assert s[3..] == b + ([h.messageType] + (c + rest));
    assert s[6] == h.messageType;
    assert s[7..] == c + rest;
    assert s[11..] == rest;
    GetPut24(Inline(h.timeStamp), b + ([h.messageType] + (c + rest)));
    GetPut24(h.length, [h.messageType] + (c + rest));
    GetPutLE32(h.streamID, rest);
  }

  /** A chunk that starts a message is read back whatever was read before. */
  lemma FirstRead(c: Chunk, last: map<u32, Header>, peerMax: u32, remain: Option<u32>, rest: seq<byte>)
    requires c == NewChunk(c.header.messageType, c.header.length, c.header.timeStamp, 0, c.csid, c.payload)
    requires Kept(c.csid) && c.header.length < 0x100_0000
    requires |c.payload| == PayloadSize(c.header.length, peerMax, remain)
    ensures EncodeChunk(c).Ok? && ParseChunk(EncodeChunk(c).value + rest, last, peerMax, remain) == Ok(Read(c, rest))
  {
    hide EncodeBasic, EncodeFields, ParseBasic, ParseFields, Put32, Get32;
    var h := c.header;
    var l := if c.csid in last then last[c.csid] else NO_HEADER;
    var e := EncodeExtension(0, h);
    var tail := e + (c.payload + rest);
    assert EncodeChunk(c).value + rest == EncodeBasic(0, c.csid) + (EncodeFields(0, h) + tail);
    BasicSurvives(0, c.csid, EncodeFields(0, h) + tail);
    FieldsRead(h, l, tail);
    if h.timeStamp >= MAX_TIMESTAMP {
      GetPut32(h.timeStamp, c.payload + rest);
      assert tail[4..] == c.payload + rest;
    } else {
      assert tail == c.payload + rest;
    }
    assert (c.payload + rest)[..|c.payload|] == c.payload && (c.payload + rest)[|c.payload|..] == rest;
  }

  /** A chunk that continues a message is read back when the chunk before it on its stream had the same header. */
  lemma NextRead(c: Chunk, last: map<u32, Header>, peerMax: u32, remain: u32, rest: seq<byte>)
    requires c == NewChunk(c.header.messageType, c.header.length, c.header.timeStamp, 3, c.csid, c.payload)
    requires Kept(c.csid) && c.csid in last && last[c.csid] == c.header
    requires |c.payload| == PayloadSize(c.header.length, peerMax, Some(remain))
    ensures EncodeChunk(c).Ok? && ParseChunk(EncodeChunk(c).value + rest, last, peerMax, Some(remain)) == Ok(Read(c, rest))
  {
    hide EncodeBasic, ParseBasic, Put32, Get32;
    var h := c.header;
    var tail := EncodeExtension(3, h) + (c.payload + rest);
    assert EncodeChunk(c).value + rest == EncodeBasic(3, c.csid) + tail;
    BasicSurvives(3, c.csid, tail);
    if h.timeStamp >= MAX_TIMESTAMP {
      assert tail[4..] == c.payload + rest;
    } else {
      assert tail == c.payload + rest;
    }
    assert (c.payload + rest)[..|c.payload|] == c.payload && (c.payload + rest)[|c.payload|..] == rest;
  }

  // ----- Headers that build on the last one -----

  /** RTMP 1.0 section 5.3.1.2: the header of a chunk of format 1 or 2 behind the last one of its stream. */
  function Following(fmt: byte, h: Header, last: Header): Header {
    Header((last.timeStamp + h.timeDelta) % 0x1_0000_0000, h.timeDelta,
           if fmt == 1 then h.length % 0x100_0000 else last.length,
           if fmt == 1 then h.messageType else last.messageType,
           last.streamID, h.timeDelta >= 0xFF_FFFF)
  }

  lemma DeltaFieldsRead(fmt: byte, h: Header, last: Header, rest: seq<byte>)
    requires fmt == 1 || fmt == 2
    ensures
      var f := Following(fmt, h, last);
      ParseFields(EncodeFields(fmt, h) + rest, fmt, last)
      == Ok(Read((Header(0, Inline(h.timeDelta), f.length, f.messageType, last.streamID, false), Inline(h.timeDelta)), rest))
  {
    hide Put24, Get24;
    var s := EncodeFields(fmt, h) + rest;
    var a, b := Put24(Inline(h.timeDelta)), Put24(h.length);
    if fmt == 1 {
      assert s == a + (b + ([h.messageType] + rest));
      assert s[3..] == b + ([h.messageType] + rest) && s[6] == h.messageType && s[7..] == rest;
      GetPut24(Inline(h.timeDelta), b + ([h.messageType] + rest));
      GetPut24(h.length, [h.messageType] + rest);
    } else {
      assert s[3..] == rest;
      GetPut24(Inline(h.timeDelta), rest);
    }
  }

  /** An extended difference is read back. */
  lemma DeltaExtended(fmt: byte, h: Header, last: Header, tail: seq<byte>)
    requires fmt == 1 || fmt == 2
    ensures
      var f := Following(fmt, h, last);
      var raw := Header(0, Inline(h.timeDelta), f.length, f.messageType, last.streamID, false);
      var e := ParseExtension(EncodeExtension(fmt, h) + tail, fmt, raw, Inline(h.timeDelta));
      e.Ok? && e.value.rest == tail && Accumulate(fmt, e.value.item, last, true) == f && Accumulate(fmt, e.value.item, last, false) == f
  {
    hide Put32, Get32;
    if h.timeDelta >= MAX_TIMESTAMP {
      GetPut32(h.timeDelta, tail);
      assert (EncodeExtension(fmt, h) + tail)[4..] == tail;
    } else {
      assert EncodeExtension(fmt, h) + tail == tail;
    }
  }

  lemma SamePayload(payload: seq<byte>, rest: seq<byte>)
    ensures (payload + rest)[..|payload|] == payload && (payload + rest)[|payload|..] == rest
  {}

  /**
    A chunk of format 1 or 2, with any 32-bit difference, extended or not, says the time of the last one
    plus the difference modulo 2^32, and takes from the last header what it does not say itself.
   */
  lemma DeltaRead(c: Chunk, last: map<u32, Header>, peerMax: u32, remain: Option<u32>, rest: seq<byte>)
    requires (c.fmt == 1 || c.fmt == 2) && Kept(c.csid) && c.csid in last
    requires |c.payload| == PayloadSize(Following(c.fmt, c.header, last[c.csid]).length, peerMax, remain)
    ensures EncodeChunk(c).Ok?
    ensures
      ParseChunk(EncodeChunk(c).value + rest, last, peerMax, remain)
      == Ok(Read(c.(header := Following(c.fmt, c.header, last[c.csid])), rest))
  {
    hide EncodeBasic, EncodeFields, EncodeExtension, ParseBasic, ParseFields, ParseExtension, Accumulate;
    var h, l := c.header, last[c.csid];
    var tail := c.payload + rest;
    var fields := EncodeFields(c.fmt, h) + (EncodeExtension(c.fmt, h) + tail);
    assert EncodeChunk(c).value + rest == EncodeBasic(c.fmt, c.csid) + fields;
    BasicSurvives(c.fmt, c.csid, fields);
    DeltaFieldsRead(c.fmt, h, l, EncodeExtension(c.fmt, h) + tail);
    DeltaExtended(c.fmt, h, l, tail);
    SamePayload(c.payload, rest);
  }

  /**
    A chunk of format 3 has the last header. Starting a message it adds the last difference; four bytes of
    an extended timestamp are read past, whatever they say.
   */
  lemma BareRead(csid: u32, extension: seq<byte>, payload: seq<byte>, last: map<u32, Header>, peerMax: u32,
                 remain: Option<u32>, rest: seq<byte>)
    requires Kept(csid) && csid in last && |extension| == if last[csid].extended then 4 else 0
    requires |payload| == PayloadSize(last[csid].length, peerMax, remain)
    ensures
      var l := last[csid];
      ParseChunk(EncodeBasic(3, csid) + (extension + (payload + rest)), last, peerMax, remain)
      == Ok(Read(Chunk(3, csid,
                       if remain.None? then l.(timeStamp := (l.timeStamp + l.timeDelta) % 0x1_0000_0000) else l, payload), rest))
  {
    hide EncodeBasic, ParseBasic, Get32;
    var tail := payload + rest;
    BasicSurvives(3, csid, extension + tail);
    if last[csid].extended {
      assert (extension + tail)[4..] == tail;
    } else {
      assert extension + tail == tail;
    }
    SamePayload(payload, rest);
  }

  /** There must be a last header to build on. */
  lemma NothingToFollow(fmt: byte, csid: u32, tail: seq<byte>, last: map<u32, Header>, peerMax: u32, remain: Option<u32>)
    requires 1 <= fmt <= 3 && Kept(csid) && csid !in last
    ensures ParseChunk(EncodeBasic(fmt, csid) + tail, last, peerMax, remain) == Err(InvalidFmt)
  {
    hide EncodeBasic, ParseBasic;
    BasicSurvives(fmt, csid, tail);
  }
}
