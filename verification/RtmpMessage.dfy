/**
  RTMP messages as librtmp sends and receives them: the FMT0-then-FMT3 splitting loop of
  librtmp/video.go, `ParseMessage` of librtmp/message.go with its reassembly loop and its
  acknowledgement step, and what the protocol-control messages of librtmp/control_message.go do.
 */
module RtmpMessage {
  import opened Bytes
  import opened RtmpChunk
  import opened Wrappers

  import FlvAggregate

  const SET_CHUNK_SIZE: byte := 1
  const ABORT_MESSAGE: byte := 2
  const ACKNOWLEDGEMENT: byte := 3
  const USER_CONTROL_MESSAGE: byte := 4
  const WINDOW_ACKNOWLEDGEMENT_SIZE: byte := 5
  const SET_PEER_BANDWIDTH: byte := 6
  const AUDIO_MESSAGE: byte := 8
  const VIDEO_MESSAGE: byte := 9
  const AGGREGATE_MESSAGE: byte := 22

  const PING_REQUEST: u16 := 6
  const PING_RESPONSE: u16 := 7

  const CSID_PROTOCOL_CONTROL: u32 := 11
  const CSID_USER_CONTROL: u32 := 13

  datatype Message = Message(time: u32, length: u32, messageType: byte, streamID: u32, payload: seq<byte>)

  predicate KnownType(t: byte) {
    1 <= t <= 6 || t == 8 || t == 9 || 15 <= t <= 20 || t == 22
  }

  // ----- Reassembly -----

  datatype Assembled = Assembled(message: Message, rest: seq<byte>, last: map<u32, Header>)

  function Remain(m: Message): u32 {
    U32(m.length - |m.payload|)
  }

  function RemainOf(m: Option<Message>): Option<u32> {
    if m.Some? then Some(Remain(m.value)) else None
  }

  /** The message after one more chunk; a chunk that starts one fixes its type and length, a later one its time. */
  function Joined(m: Option<Message>, c: Chunk): Message {
    if m.None? then Message(c.header.timeStamp, c.header.length, c.header.messageType, c.header.streamID, c.payload)
    else m.value.(time := c.header.timeStamp, payload := m.value.payload + c.payload)
  }

  /** The reading loop of `ParseMessage` from the chunks still unread. */
  function Assemble(s: seq<byte>, last: map<u32, Header>, peerMax: u32, m: Option<Message>): Result<Assembled>
    decreases |s|
  {
    var c := ParseChunk(s, last, peerMax, RemainOf(m));
    if c.Err? then Err(c.error)
    else if m.None? && !KnownType(c.value.item.header.messageType) then Err(InvalidMessageType)
    else
      var last' := last[c.value.item.csid := c.value.item.header];
      var m' := Joined(m, c.value.item);
      if Remain(m') == 0 then Ok(Assembled(m', c.value.rest, last'))
      else Assemble(c.value.rest, last', peerMax, Some(m'))
  }

  // ----- The receiver -----

  datatype Conn = Conn(
    input: seq<byte>, output: seq<byte>, last: map<u32, Header>, peerMax: u32,
    window: u32, received: u32, acked: u32, bandwidth: u32, limit: byte)

  function ControlChunk(messageType: byte, time: u32, csid: u32, payload: seq<byte>): Chunk {
    NewChunk(messageType, U32(|payload|), time, 0, csid, payload)
  }

  function Encoded(c: Chunk): seq<byte> {
    if EncodeChunk(c).Ok? then EncodeChunk(c).value else []
  }

  predicate AckDue(window: u32, received: u32, acked: u32) {
    window > 0 && U32(received - acked) >= window
  }

  /** Counts the message and acknowledges what has been received once a window is full. */
  function Acknowledge(c: Conn, length: u32): Conn {
    var received := U32(c.received + length);
    if AckDue(c.window, received, c.acked) then
      c.(received := received, acked := received,
         output := c.output + Encoded(ControlChunk(ACKNOWLEDGEMENT, 0, CSID_PROTOCOL_CONTROL, Put32(received))))
    else c.(received := received)
  }

  /**
    `Parse` and `Do` of the message; both run, so a payload found too short still takes effect as zeros.
    A media body that does not parse is an error; AMF bodies are taken to parse.
   */
  function Effect(c: Conn, m: Message): (Conn, Option<Error>) {
    var p := m.payload;
    if m.messageType == SET_CHUNK_SIZE then
      if |p| < 4 then (c, Some(OutOfRange)) else (c.(peerMax := Get32(p)), None)
    else if m.messageType == ABORT_MESSAGE then
      if |p| < 4 then (c.(last := c.last - {0}), Some(ShortPayload)) else (c.(last := c.last - {Get32(p)}), None)
    else if m.messageType == ACKNOWLEDGEMENT then
      (c, if |p| < 4 then Some(ShortPayload) else None)
    else if m.messageType == USER_CONTROL_MESSAGE then
      if |p| < 2 then (c, Some(ShortPayload))
      else if Get16(p) == PING_REQUEST && |p| >= 6 then
        (c.(output := c.output + Encoded(ControlChunk(USER_CONTROL_MESSAGE, m.time, CSID_USER_CONTROL, Put16(PING_RESPONSE) + p[2..6]))), None)
      else (c, None)
    else if m.messageType == WINDOW_ACKNOWLEDGEMENT_SIZE then
      if |p| < 4 then (c, Some(OutOfRange)) else (c.(window := Get32(p)), None)
    else if m.messageType == SET_PEER_BANDWIDTH then
      if |p| < 5 then (c.(bandwidth := 0, limit := 0), Some(ShortPayload))
      else (c.(bandwidth := Get32(p), limit := p[4]), None)
    else if m.messageType == AUDIO_MESSAGE then
      (c, if FlvAggregate.ParseAudio(m.time, p).None? then Some(InvalidBody) else None)
    else if m.messageType == VIDEO_MESSAGE then
      (c, if FlvAggregate.ParseVideo(m.time, p).None? then Some(InvalidBody) else None)
    else if m.messageType == AGGREGATE_MESSAGE then
      (c, if !FlvAggregate.Walk(p, None, m.time).ok then Some(InvalidBody) else None)
    else (c, None)
  }

  datatype Received = Received(conn: Conn, message: Message)

  /** One call of `ParseMessage`. */
  function Receive(c: Conn): Result<Received> {
    var a := Assemble(c.input, c.last, c.peerMax, None);
    if a.Err? then Err(a.error)
    else
      var counted := Acknowledge(c.(input := a.value.rest, last := a.value.last), a.value.message.length);
      var (c', e) := Effect(counted, a.value.message);
      if e.Some? then Err(e.value) else Ok(Received(c', a.value.message))
  }

  // ----- The connection -----

  class RTMP {
    var readerConn: seq<byte>  // not yet read
    var writerConn: seq<byte>  // written so far
    var lastChunk: map<u32, Header>
    var peerMaxChunkSize: u32
    var ownMaxChunkSize: int
    var peerWindowAckSize: u32
    var bytesReceived: u32
    var lastAcked: u32
    var peerBandwidth: u32
    var peerBandwidthLimit: byte

    constructor (input: seq<byte>)
      ensures State() == Conn(input, [], map[], 128, 0, 0, 0, 0, 0) && ownMaxChunkSize == 128
    {
      readerConn, writerConn := input, [];
      lastChunk := map[];
      peerMaxChunkSize, ownMaxChunkSize := 128, 128;
      peerWindowAckSize, bytesReceived, lastAcked := 0, 0, 0;
      peerBandwidth, peerBandwidthLimit := 0, 0;
    }

    ghost function State(): Conn
      reads this
    {
      Conn(readerConn, writerConn, lastChunk, peerMaxChunkSize, peerWindowAckSize, bytesReceived, lastAcked, peerBandwidth, peerBandwidthLimit)
    }

    method SendChunk(c: Chunk) returns (err: bool)
      modifies `writerConn
      ensures err <==> EncodeChunk(c).Err?
      ensures writerConn == old(writerConn) + Encoded(c)
    {
      hide Put24, Put32, PutLE32, Put16;
      var b: seq<byte> := [];
      if c.csid < 3 {
        return true;
      } else if c.fmt >= 4 {
        return true;
      } else if c.csid < 64 {
        b := b + [c.fmt * 0x40 + c.csid];
      } else if c.csid < 320 {
        b := b + [c.fmt * 0x40];
        b := b + [c.csid - 64];
      } else {
        b := b + [c.fmt * 0x40 + 1];
        b := b + Put16((c.csid - 64) % 0x1_0000);
      }
      assert b == EncodeBasic(c.fmt, c.csid);
      ghost var basic := b;
      var tsField := c.header.timeStamp;
      if c.fmt == 1 || c.fmt == 2 {
        tsField := c.header.timeDelta;
      }
      var useExt := tsField >= MAX_TIMESTAMP;
      var inlineTS := tsField;
      if useExt {
        inlineTS := MAX_TIMESTAMP;
      }
      if c.fmt == 0 {
        b := b + (Put24(inlineTS) + Put24(c.header.length) + [c.header.messageType] + PutLE32(c.header.streamID));
      } else if c.fmt == 1 {
        b := b + (Put24(inlineTS) + Put24(c.header.length) + [c.header.messageType]);
      } else if c.fmt == 2 {
        b := b + Put24(inlineTS);
      }
      assert b == basic + EncodeFields(c.fmt, c.header);
      if useExt || (c.fmt == 3 && c.header.extended) {
        var extTS := c.header.timeStamp;
        if c.fmt == 1 || c.fmt == 2 {
          extTS := c.header.timeDelta;
        }
        b := b + Put32(extTS);
      }
      assert b == basic + EncodeFields(c.fmt, c.header) + EncodeExtension(c.fmt, c.header);
      writerConn := writerConn + (b + c.payload);
      return false;
    }

    /** One call; nothing is promised of the connection after an error, when the source drops it. */
    method ParseMessage() returns (r: Result<Message>)
      modifies this
      ensures r.Ok? <==> Receive(old(State())).Ok?
      ensures r.Err? ==> Err(r.error) == Receive(old(State()))
      ensures r.Ok? ==> Ok(Received(State(), r.value)) == Receive(old(State()))
    {
      hide ParseChunk, EncodeChunk, Acknowledge, Effect;
      var message: Option<Message> := None;
      ghost var start := Assemble(readerConn, lastChunk, peerMaxChunkSize, None);
      while true
        invariant Assemble(readerConn, lastChunk, peerMaxChunkSize, message) == start
        invariant State() == old(State()).(input := readerConn, last := lastChunk)
        decreases |readerConn|
      {
        var chunk := ParseChunk(readerConn, lastChunk, peerMaxChunkSize, RemainOf(message));
        if chunk.Err? {
          return Err(chunk.error);
        }
        ChunkShorter(readerConn, lastChunk, peerMaxChunkSize, RemainOf(message));
        readerConn := chunk.value.rest;
        lastChunk := lastChunk[chunk.value.item.csid := chunk.value.item.header];
        if message.None? && !KnownType(chunk.value.item.header.messageType) {
          return Err(InvalidMessageType);
        }
        message := Some(Joined(message, chunk.value.item));
        if Remain(message.value) == 0 {
          break;
        }
      }
      var m := message.value;
      Count(m.length);
      var err := Do(m);
      if err.Some? {
        return Err(err.value);
      }
      return Ok(m);
    }

    /** The step behind the reading loop: counts, and acknowledges when a window is full. */
    method Count(length: u32)
      modifies `bytesReceived, `lastAcked, `writerConn
      ensures State() == Acknowledge(old(State()), length)
    {
      hide EncodeChunk;
      bytesReceived := U32(bytesReceived + length);
      if peerWindowAckSize > 0 && U32(bytesReceived - lastAcked) >= peerWindowAckSize {
        var sendErr := SendChunk(ControlChunk(ACKNOWLEDGEMENT, 0, CSID_PROTOCOL_CONTROL, Put32(bytesReceived)));
        ControlEncodes(ACKNOWLEDGEMENT, 0, CSID_PROTOCOL_CONTROL, Put32(bytesReceived));
        if !sendErr {
          lastAcked := bytesReceived;
        }
      }
    }

    method Do(m: Message) returns (err: Option<Error>)
      modifies this
      ensures (State(), err) == Effect(old(State()), m)
    {
      hide EncodeChunk;
      err := None;
      var p := m.payload;
      if m.messageType == SET_CHUNK_SIZE {
        if |p| < 4 {
          return Some(OutOfRange);
        }
        peerMaxChunkSize := Get32(p);
      } else if m.messageType == ABORT_MESSAGE {
        var chunkStreamID: u32 := 0;
        if |p| < 4 {
          err := Some(ShortPayload);
        } else {
          chunkStreamID := Get32(p);
        }
        lastChunk := lastChunk - {chunkStreamID};
      } else if m.messageType == ACKNOWLEDGEMENT {
        if |p| < 4 {
          err := Some(ShortPayload);
        }
      } else if m.messageType == USER_CONTROL_MESSAGE {
        if |p| < 2 {
          return Some(ShortPayload);
        }
        var eventType, eventData := Get16(p), p[2..];
        if eventType == PING_REQUEST && |eventData| >= 4 {
          assert eventData[..4] == p[2..6];
          ControlEncodes(USER_CONTROL_MESSAGE, m.time, CSID_USER_CONTROL, Put16(PING_RESPONSE) + eventData[..4]);
          var failed := SendChunk(ControlChunk(USER_CONTROL_MESSAGE, m.time, CSID_USER_CONTROL, Put16(PING_RESPONSE) + eventData[..4]));
        }
      } else if m.messageType == WINDOW_ACKNOWLEDGEMENT_SIZE {
        if |p| < 4 {
          return Some(OutOfRange);
        }
        peerWindowAckSize := Get32(p);
      } else if m.messageType == SET_PEER_BANDWIDTH {
        var size: u32, limitType: byte := 0, 0;
        if |p| < 5 {
          err := Some(ShortPayload);
        } else {
          size, limitType := Get32(p), p[4];
        }
        peerBandwidth, peerBandwidthLimit := size, limitType;
      } else if m.messageType == AUDIO_MESSAGE {
        var audioTag := FlvAggregate.ParseAudioTag(m.time, p);
        if audioTag.None? {
          err := Some(InvalidBody);
        }
      } else if m.messageType == VIDEO_MESSAGE {
        var videoTag := FlvAggregate.ParseVideoTag(m.time, p);
        if videoTag.None? {
          err := Some(InvalidBody);
        }
      } else if m.messageType == AGGREGATE_MESSAGE {
        var ok, _ := FlvAggregate.Do(p, m.time);
        if !ok {
          err := Some(InvalidBody);
        }
      }
    }

    /** The `Send` of a protocol-control message: one chunk, whatever the chunk size. */
    method SendControl(messageType: byte, time: u32, csid: u32, payload: seq<byte>) returns (err: bool)
      requires csid >= 3
      modifies `writerConn
      ensures !err && writerConn == old(writerConn) + Encoded(ControlChunk(messageType, time, csid, payload))
    {
      ControlEncodes(messageType, time, csid, payload);
      err := SendChunk(NewChunk(messageType, U32(|payload|), time, 0, csid, payload));
    }

    /** The new size holds for everything sent from here on; the message that announces it is not split. */
    method ChangeChunkSize(size: u32, time: u32) returns (err: bool)
      modifies `writerConn, `ownMaxChunkSize
      ensures !err && ownMaxChunkSize == size
      ensures writerConn == old(writerConn) + Encoded(ControlChunk(SET_CHUNK_SIZE, time, CSID_PROTOCOL_CONTROL, Put32(size)))
    {
      ownMaxChunkSize := size;
      err := SendControl(SET_CHUNK_SIZE, time, CSID_PROTOCOL_CONTROL, Put32(size));
    }

    /** The sending loop: the first chunk with the full header, every further one without. */
    method SendSplit(messageType: byte, time: u32, csid: u32, payload: seq<byte>) returns (err: bool)
      requires ownMaxChunkSize > 0 && csid >= 3
      modifies `writerConn
      ensures !err && writerConn == old(writerConn) + SplitBytes(messageType, time, csid, payload, ownMaxChunkSize, 0)
    {
      hide EncodeChunk;
      var chunkSize := ownMaxChunkSize;
      var i := 0;
      ghost var before := writerConn;
      while true
        invariant i >= 0
        invariant before + SplitBytes(messageType, time, csid, payload, chunkSize, 0)
                  == writerConn + SplitBytes(messageType, time, csid, payload, chunkSize, i * chunkSize)
        decreases |payload| - i * chunkSize
      {
        var lIndex := i * chunkSize;
        if lIndex >= |payload| {
          break;
        }
        var rIndex := lIndex + chunkSize;
        if rIndex > |payload| {
          rIndex := |payload|;
        }
        var fmtType: byte := 0;
        if i != 0 {
          fmtType := 3;
        }
        var c := NewChunk(messageType, U32(|payload|), time, fmtType, csid, payload[lIndex..rIndex]);
        FirstIsZero(i, chunkSize);
        AnyEncodes(c);
        var sendErr := SendChunk(c);
        if sendErr {
          return true;
        }
        i := i + 1;
      }
      return false;
    }
  }

  lemma FirstIsZero(i: nat, size: int)
    requires size > 0
    ensures i * size == 0 <==> i == 0
    ensures (i + 1) * size == i * size + size && i * size >= 0
  {}

  lemma ChunkShorter(s: seq<byte>, last: map<u32, Header>, peerMax: u32, remain: Option<u32>)
    requires ParseChunk(s, last, peerMax, remain).Ok?
    ensures |ParseChunk(s, last, peerMax, remain).value.rest| < |s|
  {}

  lemma AnyEncodes(c: Chunk)
    requires c.csid >= 3 && c.fmt < 4
    ensures EncodeChunk(c).Ok?
  {}

  lemma ControlEncodes(messageType: byte, time: u32, csid: u32, payload: seq<byte>)
    requires csid >= 3
    ensures EncodeChunk(ControlChunk(messageType, time, csid, payload)).Ok?
  {}

  /** The chunks of a message from one position on. */
  function SplitBytes(messageType: byte, time: u32, csid: u32, payload: seq<byte>, size: int, from: nat): seq<byte>
    requires size > 0
    decreases |payload| - from
  {
    if from >= |payload| then []
    else
      var to := if from + size > |payload| then |payload| else from + size;
      Encoded(NewChunk(messageType, U32(|payload|), time, if from == 0 then 0 else 3, csid, payload[from..to]))
      + SplitBytes(messageType, time, csid, payload, size, from + size)
  }
}
