/**
  Every run of messages that librtmp and its peers send is what `ParseMessage` returns, across headers of
  every format, changes of the chunk size, aborts and extended timestamps; what each message changes;
  and acknowledgements are never skipped.
 */
module RtmpRoundTrip {
  import opened Bytes
  import opened RtmpChunk
  import opened RtmpMessage
  import opened Wrappers

  import FlvAggregate

  /**
    What is sent: a payload split into chunks of the sender's size, or a control payload in one chunk, both
    with a full header; or, as peers do, a payload split into chunks whose first header builds on the
    last one of its chunk stream.
   */
  datatype Out =
    | Split(csid: u32, messageType: byte, time: u32, payload: seq<byte>)
    | Whole(csid: u32, messageType: byte, time: u32, payload: seq<byte>)
    | Based(fmt: byte, csid: u32, messageType: byte, delta: u32, payload: seq<byte>)

  /** RTMP 1.0 section 5.3.1.2: the header that the message has, and that its chunk stream has after it. */
  function HeaderOf(o: Out, last: map<u32, Header>): Header
    requires Sound(o, last)
  {
    match o
    case Split(_, messageType, time, payload) => Header(time, 0, |payload|, messageType, 0, time >= 0xFF_FFFF)
    case Whole(_, messageType, time, payload) => Header(time, 0, |payload|, messageType, 0, time >= 0xFF_FFFF)
    case Based(fmt, csid, messageType, delta, payload) =>
      var l := last[csid];
      Header((l.timeStamp + delta) % 0x1_0000_0000, delta, |payload|, messageType, l.streamID,
             if fmt == 3 then l.extended else delta >= 0xFF_FFFF)
  }

  /** Formats 2 and 3 repeat length and type, format 3 the difference too; an empty split payload sends nothing. */
  predicate Sound(o: Out, last: map<u32, Header>) {
    && Kept(o.csid) && |o.payload| < 0x100_0000
    && (o.Split? ==> o.payload != [])
    && (o.Based? ==>
          && 1 <= o.fmt <= 3 && o.csid in last
          && (o.fmt >= 2 ==> last[o.csid].length == |o.payload| && last[o.csid].messageType == o.messageType)
          && (o.fmt == 3 ==> last[o.csid].timeDelta == o.delta))
  }

  function MessageOf(o: Out, last: map<u32, Header>): Message
    requires Sound(o, last)
  {
    MessageWith(HeaderOf(o, last), o.payload)
  }

  function MessageWith(h: Header, payload: seq<byte>): Message {
    Message(h.timeStamp, h.length, h.messageType, h.streamID, payload)
  }

  /** Behind the first chunk: no header, but four bytes to read past when the time or difference was extended. */
  function Pieces(csid: u32, extension: seq<byte>, payload: seq<byte>, size: int, from: nat): seq<byte>
    requires csid >= 3 && size > 0
    decreases |payload| - from
  {
    if from >= |payload| then []
    else
      var to := if from + size > |payload| then |payload| else from + size;
      EncodeBasic(3, csid) + (extension + (payload[from..to] + Pieces(csid, extension, payload, size, from + size)))
  }

  function FirstPiece(payload: seq<byte>, size: u32): seq<byte> {
    if size > |payload| then payload else payload[..size]
  }

  function ExtensionOf(h: Header): seq<byte> {
    if h.extended then Put32(h.timeDelta) else []
  }

  function OutBytes(o: Out, size: u32, last: map<u32, Header>): seq<byte>
    requires Sound(o, last) && (!o.Whole? ==> size > 0)
  {
    match o
    case Split(csid, t, time, payload) => SplitBytes(t, time, csid, payload, size, 0)
    case Whole(csid, t, time, payload) => Encoded(ControlChunk(t, time, csid, payload))
    case Based(fmt, csid, t, delta, payload) =>
      var extension := ExtensionOf(HeaderOf(o, last));
      var first := FirstPiece(payload, size);
      (if fmt == 3 then EncodeBasic(3, csid) + (extension + first)
       else Encoded(Chunk(fmt, csid, Header(0, delta, |payload|, t, 0, false), first)))
      + Pieces(csid, extension, payload, size, size)
  }

  // ----- Reassembly -----

  lemma PayloadFits(length: u32, size: u32, from: nat)
    requires from < length
    ensures PayloadSize(length, size, Some(length - from)) == if size < length - from then size else length - from
  {}

  lemma EncodedIs(c: Chunk)
    ensures EncodeChunk(c).Ok? ==> Encoded(c) == EncodeChunk(c).value
  {}

  lemma AssembleStep(s: seq<byte>, last: map<u32, Header>, peerMax: u32, m: Message, c: Chunk, later: seq<byte>)
    requires ParseChunk(s, last, peerMax, Some(Remain(m))) == Ok(Read(c, later)) && |later| < |s|
    requires last[c.csid := c.header] == last
    ensures
      var m' := Joined(Some(m), c);
      Assemble(s, last, peerMax, Some(m))
      == if Remain(m') == 0 then Ok(Assembled(m', later, last)) else Assemble(later, last, peerMax, Some(m'))
  {
    hide ParseChunk, Joined, Remain;
  }

  lemma PieceJoined(h: Header, c: Chunk, payload: seq<byte>, from: nat, to: nat)
    requires from <= to <= |payload| && h.length == |payload| && c.payload == payload[from..to] && c.header == h
    ensures
      var m, m' := MessageWith(h, payload[..from]), MessageWith(h, payload[..to]);
      && Joined(Some(m), c) == m' && Remain(m) == |payload| - from && Remain(m') == |payload| - to
      && (from == 0 ==> Joined(None, c) == m')
  {
    assert payload[..from] + payload[from..to] == payload[..to];
  }

  /** The chunk stream's last header is the message's. */
  predicate Continues(csid: u32, extension: seq<byte>, h: Header, payload: seq<byte>, last: map<u32, Header>) {
    && Kept(csid) && csid in last && last[csid] == h
    && |extension| == (if h.extended then 4 else 0) && h.length == |payload|
  }

  lemma KeptStream(csid: u32, extension: seq<byte>, h: Header, payload: seq<byte>, last: map<u32, Header>)
    requires Continues(csid, extension, h, payload, last)
    ensures csid >= 3
  {}

  /** One more chunk of the message. */
  lemma PieceStep(csid: u32, extension: seq<byte>, h: Header, payload: seq<byte>, size: u32, from: nat,
                  last: map<u32, Header>, rest: seq<byte>)
    requires Continues(csid, extension, h, payload, last) && size > 0 && 0 < from < |payload|
    ensures
      var n := |payload|;
      var to := if from + size > n then n else from + size;
      var later := Pieces(csid, extension, payload, size, from + size) + rest;
      Assemble(Pieces(csid, extension, payload, size, from) + rest, last, size, Some(MessageWith(h, payload[..from])))
      == if to == n then Ok(Assembled(MessageWith(h, payload[..n]), later, last))
         else Assemble(later, last, size, Some(MessageWith(h, payload[..to])))
  {
    hide EncodeBasic, ParseChunk, PayloadSize, Assemble, Joined, Remain, MessageWith;
    var n := |payload|;
    var to := if from + size > n then n else from + size;
    var piece := payload[from..to];
    var later := Pieces(csid, extension, payload, size, from + size) + rest;
    var c := Chunk(3, csid, h, piece);
    PayloadFits(n, size, from);
    BareRead(csid, extension, piece, last, size, Some(n - from), later);
    var s := EncodeBasic(3, csid) + (extension + (piece + later));
    PieceInFront(EncodeBasic(3, csid), extension, piece, Pieces(csid, extension, payload, size, from + size), rest);
    assert Pieces(csid, extension, payload, size, from) + rest == s;
    hide Pieces;
    PieceJoined(h, c, payload, from, to);
    assert last[csid := h] == last;
    ChunkSpends(s, last, size, Some(n - from));
    AssembleStep(s, last, size, MessageWith(h, payload[..from]), c, later);
  }

  lemma PieceInFront(a: seq<byte>, b: seq<byte>, c: seq<byte>, d: seq<byte>, e: seq<byte>)
    ensures a + (b + (c + d)) + e == a + (b + (c + (d + e)))
  {
    assert a + (b + (c + d)) + e == a + b + c + d + e;
    assert a + (b + (c + (d + e))) == a + b + c + d + e;
  }

  /** Part of a message received; the rest of its chunks complete it. */
  lemma {:induction false} PiecesRead(csid: u32, extension: seq<byte>, h: Header, payload: seq<byte>, size: u32, from: nat,
                                      last: map<u32, Header>, rest: seq<byte>)
    requires Continues(csid, extension, h, payload, last) && size > 0 && 0 < from < |payload|
    ensures
      Assemble(Pieces(csid, extension, payload, size, from) + rest, last, size, Some(MessageWith(h, payload[..from])))
      == Ok(Assembled(MessageWith(h, payload), rest, last))
    decreases |payload| - from
  {
    hide *;
    KeptStream(csid, extension, h, payload, last);
    PieceStep(csid, extension, h, payload, size, from, last, rest);
    if from + size < |payload| {
      PiecesRead(csid, extension, h, payload, size, from + size, last, rest);
    } else {
      assert payload[..|payload|] == payload;
      NothingLeft(csid, extension, payload, size, from + size, rest);
    }
  }

  lemma NothingLeft(csid: u32, extension: seq<byte>, payload: seq<byte>, size: int, from: nat, rest: seq<byte>)
    requires csid >= 3 && size > 0 && from >= |payload|
    ensures Pieces(csid, extension, payload, size, from) == [] && [] + rest == rest
  {}

  /** A first chunk read with the message's header, and the pieces behind it, are the message if its type is known. */
  lemma FirstAssembled(s: seq<byte>, c: Chunk, extension: seq<byte>, payload: seq<byte>, size: u32,
                       last: map<u32, Header>, rest: seq<byte>)
    requires Kept(c.csid) && |extension| == (if c.header.extended then 4 else 0) && c.header.length == |payload|
    requires size > 0 && c.payload == FirstPiece(payload, size)
    requires ParseChunk(s, last, size, None) == Ok(Read(c, Pieces(c.csid, extension, payload, size, size) + rest))
    ensures
      Assemble(s, last, size, None)
      == if !KnownType(c.header.messageType) then Err(InvalidMessageType)
         else Ok(Assembled(MessageWith(c.header, payload), rest, last[c.csid := c.header]))
  {
    hide ParseChunk, Joined, Remain, MessageWith, EncodeBasic, Pieces, KnownType;
    var n, h := |payload|, c.header;
    var to := if size > n then n else size;
    var last' := last[c.csid := h];
    var later := Pieces(c.csid, extension, payload, size, size) + rest;
    assert payload[..n] == payload && payload[0..to] == payload[..to];
    PieceJoined(h, c, payload, 0, to);
    ChunkSpends(s, last, size, None);
    if to < n {
      PiecesRead(c.csid, extension, h, payload, size, to, last', rest);
    } else {
      NothingLeft(c.csid, extension, payload, size, size, rest);
    }
  }

  lemma ChunkSpends(s: seq<byte>, last: map<u32, Header>, peerMax: u32, remain: Option<u32>)
    ensures
      var c := ParseChunk(s, last, peerMax, remain);
      c.Ok? ==>
        && |c.value.rest| + |c.value.item.payload| < |s|
        && (remain.Some? ==> |c.value.item.payload| <= remain.value)
  {}

  /** What reassembling one message gives. */
  function AssembledOf(o: Out, last: map<u32, Header>, rest: seq<byte>): Result<Assembled>
    requires Sound(o, last)
  {
    if !KnownType(o.messageType) then Err(InvalidMessageType)
    else Ok(Assembled(MessageOf(o, last), rest, last[o.csid := HeaderOf(o, last)]))
  }

  lemma {:induction false} SplitIsPieces(o: Out, size: u32, from: nat, extension: seq<byte>)
    requires o.Split? && o.csid >= 3 && |o.payload| < 0x100_0000 && size > 0 && from > 0
    requires extension == EncodeExtension(3, Header(o.time, 0, |o.payload|, o.messageType, 0, o.time >= MAX_TIMESTAMP))
    ensures SplitBytes(o.messageType, o.time, o.csid, o.payload, size, from) == Pieces(o.csid, extension, o.payload, size, from)
    decreases |o.payload| - from
  {
    hide EncodeBasic, EncodeExtension;
    if from < |o.payload| {
      SplitIsPieces(o, size, from + size, extension);
      var to := if from + size > |o.payload| then |o.payload| else from + size;
      assert U32(|o.payload|) == |o.payload|;
      hide SplitBytes, Pieces;
      BareEncoded(o, o.payload[from..to], extension);
      Regroup(EncodeBasic(3, o.csid) + extension, o.payload[from..to], Pieces(o.csid, extension, o.payload, size, from + size));
      Regroup(EncodeBasic(3, o.csid), extension, o.payload[from..to] + Pieces(o.csid, extension, o.payload, size, from + size));
    }
  }

  lemma BareEncoded(o: Out, piece: seq<byte>, extension: seq<byte>)
    requires o.Split? && o.csid >= 3 && |o.payload| < 0x100_0000
    requires extension == EncodeExtension(3, Header(o.time, 0, |o.payload|, o.messageType, 0, o.time >= MAX_TIMESTAMP))
    ensures
      Encoded(NewChunk(o.messageType, |o.payload|, o.time, 3, o.csid, piece)) == EncodeBasic(3, o.csid) + extension + piece
  {
    hide EncodeBasic, EncodeExtension;
    assert EncodeBasic(3, o.csid) + [] + extension == EncodeBasic(3, o.csid) + extension;
  }

  /** A split message is reassembled by a receiver that expects the sender's chunk size. */
  lemma AssembleSplit(o: Out, size: u32, last: map<u32, Header>, rest: seq<byte>)
    requires o.Split? && Sound(o, last) && size > 0
    ensures Assemble(OutBytes(o, size, last) + rest, last, size, None) == AssembledOf(o, last, rest)
  {
    hide EncodeChunk, EncodeExtension, ParseChunk, Assemble, Encoded, KnownType;
    var n, h := |o.payload|, HeaderOf(o, last);
    var to := if size > n then n else size;
    var extension := EncodeExtension(3, h);
    var c := NewChunk(o.messageType, n, o.time, 0, o.csid, o.payload[0..to]);
    var later := Pieces(o.csid, extension, o.payload, size, size) + rest;
    FirstRead(c, last, size, None, later);
    EncodedIs(c);
    SplitIsPieces(o, size, size, extension);
    FirstOfSplit(o, size);
    hide SplitBytes, Pieces;
    Regroup(Encoded(c), Pieces(o.csid, extension, o.payload, size, size), rest);
    assert o.payload[0..to] == FirstPiece(o.payload, size);
    ExtensionSize(h);
    FirstAssembled(Encoded(c) + later, c, extension, o.payload, size, last, rest);
  }

  lemma FirstOfSplit(o: Out, size: u32)
    requires o.Split? && o.payload != [] && |o.payload| < 0x100_0000 && size > 0
    ensures
      var to := if size > |o.payload| then |o.payload| else size as int;
      SplitBytes(o.messageType, o.time, o.csid, o.payload, size, 0)
      == Encoded(NewChunk(o.messageType, |o.payload|, o.time, 0, o.csid, o.payload[0..to]))
         + SplitBytes(o.messageType, o.time, o.csid, o.payload, size, size)
  {
    hide Encoded;
    assert U32(|o.payload|) == |o.payload|;
  }

  lemma ExtensionSize(h: Header)
    requires h.extended <==> h.timeStamp >= MAX_TIMESTAMP
    ensures |EncodeExtension(3, h)| == if h.extended then 4 else 0
  {}

  /** So is one whose first header builds on the last one of its chunk stream. */
  lemma AssembleBased(o: Out, size: u32, last: map<u32, Header>, rest: seq<byte>)
    requires o.Based? && Sound(o, last) && size > 0
    ensures Assemble(OutBytes(o, size, last) + rest, last, size, None) == AssembledOf(o, last, rest)
  {
    hide EncodeChunk, EncodeBasic, ParseChunk, Assemble, Encoded, Pieces, KnownType;
    var h := HeaderOf(o, last);
    var extension, first := ExtensionOf(h), FirstPiece(o.payload, size);
    var pieces := Pieces(o.csid, extension, o.payload, size, size);
    var c := Chunk(o.fmt, o.csid, h, first);
    if o.fmt == 3 {
      BareRead(o.csid, extension, first, last, size, None, pieces + rest);
      assert OutBytes(o, size, last) + rest == EncodeBasic(3, o.csid) + (extension + (first + (pieces + rest))) by {
        FourParts(EncodeBasic(3, o.csid), extension, first, pieces, rest);
      }
    } else {
      var written := Chunk(o.fmt, o.csid, Header(0, o.delta, |o.payload|, o.messageType, 0, false), first);
      DeltaRead(written, last, size, None, pieces + rest);
      EncodedIs(written);
      Regroup(Encoded(written), pieces, rest);
    }
    FirstAssembled(OutBytes(o, size, last) + rest, c, extension, o.payload, size, last, rest);
  }

  lemma FourParts(a: seq<byte>, b: seq<byte>, c: seq<byte>, d: seq<byte>, e: seq<byte>)
    ensures a + (b + c) + d + e == a + (b + (c + (d + e)))
  {
    assert a + (b + c) + d + e == a + b + c + d + e;
    assert a + (b + (c + (d + e))) == a + b + c + d + e;
  }

  lemma {:induction false} AssembleShortens(s: seq<byte>, last: map<u32, Header>, peerMax: u32, m: Message)
    requires |m.payload| < m.length
    ensures
      var a := Assemble(s, last, peerMax, Some(m));
      a.Ok? ==> |a.value.rest| + (m.length - |m.payload|) < |s|
    decreases |s|
  {
    hide ParseChunk;
    ChunkSpends(s, last, peerMax, Some(Remain(m)));
    var c := ParseChunk(s, last, peerMax, Some(Remain(m)));
    if c.Ok? {
      var m' := Joined(Some(m), c.value.item);
      if Remain(m') != 0 {
        AssembleShortens(c.value.rest, last[c.value.item.csid := c.value.item.header], peerMax, m');
      }
    }
  }

  /**
    A payload sent in one chunk, as the control messages are, is read back exactly when it is no longer
    than the chunk size its receiver expects: a longer one would be continued with the bytes behind it.
   */
  lemma WholeSurvives(o: Out, peerMax: u32, last: map<u32, Header>, rest: seq<byte>)
    requires o.Whole? && Sound(o, last)
    ensures |o.payload| <= peerMax ==> Assemble(OutBytes(o, peerMax, last) + rest, last, peerMax, None) == AssembledOf(o, last, rest)
    ensures
      KnownType(o.messageType) && |o.payload| > peerMax
      ==> Assemble(OutBytes(o, peerMax, last) + rest, last, peerMax, None) != AssembledOf(o, last, rest)
  {
    hide EncodeChunk, ParseChunk, KnownType;
    var n := |o.payload|;
    if n <= peerMax {
      FirstRead(NewChunk(o.messageType, n, o.time, 0, o.csid, o.payload), last, peerMax, None, rest);
    } else if KnownType(o.messageType) {
      // the receiver takes the first peerMax bytes for the whole chunk
      var head, tail := o.payload[..peerMax], o.payload[peerMax..];
      var c := NewChunk(o.messageType, n, o.time, 0, o.csid, head);
      WholeIsLonger(o, head, tail, last);
      FirstRead(c, last, peerMax, None, tail + rest);
      assert OutBytes(o, peerMax, last) + rest == Encoded(c) + (tail + rest);
      AssembleShortens(tail + rest, last[o.csid := c.header], peerMax, MessageOf(o, last).(payload := head));
    }
  }

  lemma WholeIsLonger(o: Out, head: seq<byte>, tail: seq<byte>, last: map<u32, Header>)
    requires o.Whole? && Sound(o, last) && o.payload == head + tail
    ensures OutBytes(o, 0, last) == Encoded(NewChunk(o.messageType, |o.payload|, o.time, 0, o.csid, head)) + tail
  {
    hide EncodeBasic, EncodeFields, EncodeExtension;
  }

  // ----- One message -----

  /** A 32-bit number at the front. */
  function Word(b: seq<byte>): nat
    requires |b| >= 4
  {
    b[0] as int * 0x100_0000 + b[1] as int * 0x1_0000 + b[2] as int * 0x100 + b[3] as int
  }

  /** A message of a known type whose payload is long enough for it, aggregates part by part. */
  predicate Accepted(o: Out) {
    if o.messageType in {1, 2, 3, 5} then |o.payload| >= 4
    else if o.messageType == 4 then |o.payload| >= 2
    else if o.messageType == 6 then |o.payload| >= 5
    else if o.messageType in {8, 9} then FlvAggregate.Parses(o.messageType, o.payload)
    else if o.messageType == 22 then FlvAggregate.Intact(o.payload)
    else o.messageType in {15, 16, 17, 18, 19, 20}
  }

  /** The chunk size after a message: a SetChunkSize message sets it, on both sides. */
  function SizeAfter(o: Out, size: u32): u32 {
    if o.messageType == 1 && |o.payload| >= 4 then Word(o.payload) else size
  }

  /** The headers after a message: its own, unless it aborts a chunk stream. */
  function LastAfter(o: Out, last: map<u32, Header>): map<u32, Header>
    requires Sound(o, last)
  {
    var l := last[o.csid := HeaderOf(o, last)];
    if o.messageType == 2 && |o.payload| >= 4 then l - {Word(o.payload)} else l
  }

  /** Whether a message of so many bytes fills the window. */
  predicate Fills(c: Conn, n: nat) {
    c.window > 0 && ((c.received + n) % 0x1_0000_0000 - c.acked) % 0x1_0000_0000 >= c.window
  }

  /** The acknowledgement that a message draws when it fills the window, sent whole. */
  function AckOf(c: Conn, o: Out): seq<byte> {
    if Fills(c, |o.payload|) then WholeBytes(11, 3, 0, Put32((c.received + |o.payload|) % 0x1_0000_0000)) else []
  }

  /** The answer to a ping, with its four bytes. */
  function PongOf(o: Out, time: u32): seq<byte>
    requires |o.payload| < 0x100_0000
  {
    if o.messageType == 4 && |o.payload| >= 6 && o.payload[..2] == [0, 6]
    then WholeBytes(13, 4, time, [0, 7] + o.payload[2..6]) else []
  }

  function WholeBytes(csid: u32, messageType: byte, time: u32, payload: seq<byte>): seq<byte>
    requires Kept(csid) && |payload| < 0x100_0000
  {
    OutBytes(Whole(csid, messageType, time, payload), 0, map[])
  }

  /** The connection after an accepted message, with its input used up to rest. */
  function After(c: Conn, o: Out, rest: seq<byte>): Conn
    requires Sound(o, c.last) && Accepted(o)
  {
    var received := (c.received + |o.payload|) % 0x1_0000_0000;
    Conn(rest, c.output + (AckOf(c, o) + PongOf(o, HeaderOf(o, c.last).timeStamp)), LastAfter(o, c.last), SizeAfter(o, c.peerMax),
         if o.messageType == 5 then Word(o.payload) else c.window,
         received, if Fills(c, |o.payload|) then received else c.acked,
         if o.messageType == 6 then Word(o.payload) else c.bandwidth,
         if o.messageType == 6 then o.payload[4] else c.limit)
  }

  lemma WordIs(b: seq<byte>)
    requires |b| >= 4
    ensures Word(b) == Get32(b)
  {}

  lemma PingIs(b: seq<byte>)
    requires |b| >= 2
    ensures Get16(b) == PING_REQUEST <==> b[..2] == [0, 6]
    ensures Put16(PING_RESPONSE) == [0, 7]
  {
    assert b[..2] == [b[0], b[1]];
  }

  lemma Counted(c: Conn, n: u32)
    ensures Fills(c, n) <==> AckDue(c.window, U32(c.received + n), c.acked)
    ensures U32(c.received + n) == (c.received + n) % 0x1_0000_0000
  {}

  lemma WholeIs(csid: u32, messageType: byte, time: u32, payload: seq<byte>)
    requires Kept(csid) && |payload| < 0x100_0000
    ensures WholeBytes(csid, messageType, time, payload) == Encoded(ControlChunk(messageType, time, csid, payload))
  {}

  /** The connection once the message is read and counted. */
  function CountedConn(c: Conn, o: Out, rest: seq<byte>): Conn
    requires Sound(o, c.last)
  {
    var received := (c.received + |o.payload|) % 0x1_0000_0000;
    Conn(rest, c.output + AckOf(c, o), c.last[o.csid := HeaderOf(o, c.last)], c.peerMax, c.window,
         received, if Fills(c, |o.payload|) then received else c.acked, c.bandwidth, c.limit)
  }

  lemma CountedIs(c: Conn, o: Out, rest: seq<byte>)
    requires Sound(o, c.last)
    ensures Acknowledge(c.(input := rest, last := c.last[o.csid := HeaderOf(o, c.last)]), |o.payload|) == CountedConn(c, o, rest)
  {
    Counted(c, |o.payload|);
    WholeIs(11, 3, 0, Put32((c.received + |o.payload|) % 0x1_0000_0000));
    hide Encoded, WholeBytes, HeaderOf, Sound, Put32, Fills, AckDue, U32;
    assert c.output + [] == c.output;
  }

  lemma PongIs(o: Out, time: u32)
    requires 2 <= |o.payload| < 0x100_0000
    ensures
      PongOf(o, time)
      == if o.messageType == 4 && Get16(o.payload) == PING_REQUEST && |o.payload| >= 6
         then Encoded(ControlChunk(USER_CONTROL_MESSAGE, time, CSID_USER_CONTROL, Put16(PING_RESPONSE) + o.payload[2..6])) else []
  {
    PingIs(o.payload);
    if |o.payload| >= 6 {
      WholeIs(13, 4, time, [0, 7] + o.payload[2..6]);
    }
    hide Encoded, WholeBytes, Get16, Put16;
  }

  lemma EffectPing(d: Conn, m: Message, pong: seq<byte>)
    requires m.messageType == USER_CONTROL_MESSAGE
    requires
      |m.payload| >= 2 ==>
        pong == if Get16(m.payload) == PING_REQUEST && |m.payload| >= 6
                then Encoded(ControlChunk(USER_CONTROL_MESSAGE, m.time, CSID_USER_CONTROL, Put16(PING_RESPONSE) + m.payload[2..6])) else []
    ensures Effect(d, m).1.None? <==> |m.payload| >= 2
    ensures |m.payload| >= 2 ==> Effect(d, m).0 == d.(output := d.output + pong)
  {
    hide Encoded, Get16, Put16;
    assert d.output + [] == d.output;
  }

  lemma EffectMedia(d: Conn, m: Message)
    requires m.messageType in {8, 9, 22}
    ensures Effect(d, m).0 == d
    ensures
      Effect(d, m).1.None?
      <==> if m.messageType == 22 then FlvAggregate.Intact(m.payload) else FlvAggregate.Parses(m.messageType, m.payload)
  {
    if m.messageType == 22 {
      FlvAggregate.WalkIntact(m.payload, None, m.time);
    }
  }

  lemma EffectControl(d: Conn, m: Message)
    requires m.messageType !in {4, 8, 9, 22}
    ensures
      var p := m.payload;
      var e := Effect(d, m);
      && (e.1.None? <==> if m.messageType in {1, 2, 3, 5} then |p| >= 4 else m.messageType == 6 ==> |p| >= 5)
      && (m.messageType == 1 && |p| >= 4 ==> e.0 == d.(peerMax := Word(p)))
      && (m.messageType == 2 && |p| >= 4 ==> e.0 == d.(last := d.last - {Word(p)}))
      && (m.messageType == 5 && |p| >= 4 ==> e.0 == d.(window := Word(p)))
      && (m.messageType == 6 && |p| >= 5 ==> e.0 == d.(bandwidth := Word(p), limit := p[4]))
      && (m.messageType !in {1, 2, 5, 6} ==> e.0 == d)
  {
    if |m.payload| >= 4 {
      WordIs(m.payload);
    }
    hide Word, Get32;
  }

  /** What the message does once it is counted. */
  lemma EffectIs(c: Conn, o: Out, rest: seq<byte>)
    requires Sound(o, c.last) && KnownType(o.messageType)
    ensures
      var e := Effect(CountedConn(c, o, rest), MessageOf(o, c.last));
      && (e.1.None? <==> Accepted(o))
      && (Accepted(o) ==> e.0 == After(c, o, rest))
  {
    var m, d := MessageOf(o, c.last), CountedConn(c, o, rest);
    var pong := PongOf(o, m.time);
    assert m.messageType == o.messageType && m.payload == o.payload && m.time == HeaderOf(o, c.last).timeStamp;
    if o.messageType == 4 {
      if |o.payload| >= 2 {
        PongIs(o, m.time);
      }
      EffectPing(d, m, pong);
    } else {
      NoPong(o, m.time);
      if o.messageType in {8, 9, 22} {
        EffectMedia(d, m);
      } else {
        EffectControl(d, m);
      }
    }
    if Accepted(o) {
      AfterIs(c, o, rest, m.time);
    }
    hide Effect, PongOf, CountedConn, After, MessageOf, HeaderOf, Sound, Word, FlvAggregate.Intact, FlvAggregate.Parses;
    assert d.output + [] == d.output;
  }

  lemma AfterIs(c: Conn, o: Out, rest: seq<byte>, time: u32)
    requires Sound(o, c.last) && Accepted(o) && time == HeaderOf(o, c.last).timeStamp
    ensures
      var d := CountedConn(c, o, rest);
      After(c, o, rest)
      == d.(output := d.output + PongOf(o, time),
            last := if o.messageType == 2 then d.last - {Word(o.payload)} else d.last,
            peerMax := if o.messageType == 1 then Word(o.payload) else d.peerMax,
            window := if o.messageType == 5 then Word(o.payload) else d.window,
            bandwidth := if o.messageType == 6 then Word(o.payload) else d.bandwidth,
            limit := if o.messageType == 6 then o.payload[4] else d.limit)
  {
    hide PongOf, AckOf, HeaderOf, Word, Fills, FlvAggregate.Intact, FlvAggregate.Parses;
    Regroup(c.output, AckOf(c, o), PongOf(o, time));
  }

  lemma NoPong(o: Out, time: u32)
    requires o.messageType != 4 && |o.payload| < 0x100_0000
    ensures PongOf(o, time) == []
  {}

  /**
    One call returns the message exactly when it is accepted, and then changes what its type says and
    nothing else: counters, replies, remembered headers, chunk size, window and bandwidth.
   */
  lemma ReceiveOne(c: Conn, o: Out, rest: seq<byte>)
    requires Sound(o, c.last) && (if o.Whole? then |o.payload| <= c.peerMax else c.peerMax > 0)
    requires c.input == OutBytes(o, c.peerMax, c.last) + rest
    ensures
      var r := Receive(c);
      && (r.Ok? <==> Accepted(o))
      && (r.Ok? ==> r.value == Received(After(c, o, rest), MessageOf(o, c.last)))
  {
    AssembledAll(o, c.peerMax, c.last, rest);
    CountedIs(c, o, rest);
    if KnownType(o.messageType) {
      EffectIs(c, o, rest);
    }
    AcceptedKnown(o);
    hide CountedConn, OutBytes, Assemble, Effect, Acknowledge, After, Accepted, HeaderOf, KnownType;
  }

  lemma AcceptedKnown(o: Out)
    ensures Accepted(o) ==> KnownType(o.messageType)
  {}

  lemma AssembledAll(o: Out, size: u32, last: map<u32, Header>, rest: seq<byte>)
    requires Sound(o, last) && (if o.Whole? then |o.payload| <= size else size > 0)
    ensures Assemble(OutBytes(o, size, last) + rest, last, size, None) == AssembledOf(o, last, rest)
  {
    hide *;
    match o
    case Split(_, _, _, _) => AssembleSplit(o, size, last, rest);
    case Whole(_, _, _, _) => WholeSurvives(o, size, last, rest);
    case Based(_, _, _, _, _) => AssembleBased(o, size, last, rest);
  }

  // ----- Runs -----

  predicate AllAccepted(outs: seq<Out>) {
    forall i :: 0 <= i < |outs| ==> Accepted(outs[i])
  }

  /** Messages that may be sent one after the other from this chunk size and these headers on. */
  predicate Sendable(outs: seq<Out>, size: u32, last: map<u32, Header>)
    decreases |outs|
  {
    outs == []
    || (&& Sound(outs[0], last)
        && (if outs[0].Whole? then |outs[0].payload| <= size else size > 0)
        && Sendable(outs[1..], SizeAfter(outs[0], size), LastAfter(outs[0], last)))
  }

  function AllBytes(outs: seq<Out>, size: u32, last: map<u32, Header>): seq<byte>
    requires Sendable(outs, size, last)
    decreases |outs|
  {
    if outs == [] then []
    else OutBytes(outs[0], size, last) + AllBytes(outs[1..], SizeAfter(outs[0], size), LastAfter(outs[0], last))
  }

  function SizeAtEnd(outs: seq<Out>, size: u32): u32
    decreases |outs|
  {
    if outs == [] then size else SizeAtEnd(outs[1..], SizeAfter(outs[0], size))
  }

  /** What the receiver remembers of each chunk stream: the header last sent on it, unless it was aborted since. */
  function Remembered(outs: seq<Out>, size: u32, last: map<u32, Header>): map<u32, Header>
    requires Sendable(outs, size, last)
    decreases |outs|
  {
    if outs == [] then last else Remembered(outs[1..], SizeAfter(outs[0], size), LastAfter(outs[0], last))
  }

  function Messages(outs: seq<Out>, size: u32, last: map<u32, Header>): (ms: seq<Message>)
    requires Sendable(outs, size, last)
    ensures |ms| == |outs|
    decreases |outs|
  {
    if outs == [] then []
    else [MessageOf(outs[0], last)] + Messages(outs[1..], SizeAfter(outs[0], size), LastAfter(outs[0], last))
  }

  datatype ReceivedAll = ReceivedAll(conn: Conn, messages: seq<Message>)

  /** `ParseMessage`, n times. */
  function ReceiveN(c: Conn, n: nat): Result<ReceivedAll>
    decreases n
  {
    if n == 0 then Ok(ReceivedAll(c, []))
    else
      var r := Receive(c);
      if r.Err? then Err(r.error)
      else
        var rs := ReceiveN(r.value.conn, n - 1);
        if rs.Err? then Err(rs.error) else Ok(ReceivedAll(rs.value.conn, [r.value.message] + rs.value.messages))
  }

  lemma AcceptedCons(outs: seq<Out>)
    requires outs != []
    ensures AllAccepted(outs) <==> Accepted(outs[0]) && AllAccepted(outs[1..])
  {
    assert forall i :: 0 < i < |outs| ==> outs[i] == outs[1..][i - 1];
  }

  lemma AfterParts(c: Conn, o: Out, rest: seq<byte>)
    requires Sound(o, c.last) && Accepted(o)
    ensures
      var t := After(c, o, rest);
      t.input == rest && t.peerMax == SizeAfter(o, c.peerMax) && t.last == LastAfter(o, c.last)
  {}

  /**
    Whatever is sent, split or whole, with full headers or with ones that build on the last, with new chunk
    sizes and aborts in between and any 32-bit times and differences: as many calls of `ParseMessage` all
    succeed if and only if every message is accepted. Then they return exactly the messages, in order, the
    input is used up, and the receiver's chunk size and headers are those the sender last used.
   */
  lemma {:induction false} RunReceived(c: Conn, outs: seq<Out>, rest: seq<byte>)
    requires Sendable(outs, c.peerMax, c.last)
    requires c.input == AllBytes(outs, c.peerMax, c.last) + rest
    ensures
      var r := ReceiveN(c, |outs|);
      && (r.Ok? <==> AllAccepted(outs))
      && (r.Ok? ==>
          && r.value.messages == Messages(outs, c.peerMax, c.last)
          && r.value.conn.input == rest
          && r.value.conn.peerMax == SizeAtEnd(outs, c.peerMax)
          && r.value.conn.last == Remembered(outs, c.peerMax, c.last))
    decreases |outs|
  {
    hide OutBytes, Receive, Accepted, After, SizeAfter, LastAfter, Sound, MessageOf;
    if outs == [] {
      assert c.input == rest;
    } else {
      var o := outs[0];
      var later := AllBytes(outs[1..], SizeAfter(o, c.peerMax), LastAfter(o, c.last)) + rest;
      assert c.input == OutBytes(o, c.peerMax, c.last) + later;
      ReceiveOne(c, o, later);
      AcceptedCons(outs);
      if Accepted(o) {
        AfterParts(c, o, later);
        RunReceived(Receive(c).value.conn, outs[1..], rest);
      }
    }
  }

  // ----- Acknowledgements -----

  /** The counters of the source, modulo 2^32, stand for the true counts of bytes received and acknowledged. */
  predicate Stands(c: Conn, received: nat, acked: nat) {
    c.received == U32(received) && c.acked == U32(acked) && acked <= received
  }

  /**
    With a window of at most 2^32 - 2^24 the wrapped comparison decides as the true counts would: the step
    acknowledges exactly when a window is full, and less than a window is unacknowledged after it.
   */
  lemma AcknowledgeRefines(c: Conn, received: nat, acked: nat, length: u32)
    requires Stands(c, received, acked) && received - acked < c.window <= 0xFF00_0000 && length < 0x100_0000
    ensures
      var c' := Acknowledge(c, length);
      var received' := received + length;
      var due := received' - acked >= c.window;
      && (AckDue(c.window, U32(c.received + length), c.acked) <==> due)
      && Stands(c', received', if due then received' else acked)
      && received' - (if due then received' else acked) < c'.window
  {
    hide Encoded;
    WrappedDifference(received, acked, length);
  }

  lemma WrappedDifference(received: nat, acked: nat, length: u32)
    requires acked <= received && received - acked + length < 0x1_0000_0000
    ensures U32(U32(U32(received) + length) - U32(acked)) == received + length - acked
    ensures U32(U32(received) + length) == U32(received + length)
  {
    U32Sum(received, length);
    U32Minus(received + length, acked);
  }

  lemma U32Sum(a: nat, b: u32)
    ensures U32(U32(a) + b) == U32(a + b)
  {
    var low: int := U32(a);
    SameU32(a + b, low + b, a / 0x1_0000_0000);
  }

  /** Lengths read from a header have 24 bits, and so have those inherited from it. */
  predicate Small(last: map<u32, Header>) {
    forall k :: k in last ==> last[k].length < 0x100_0000
  }

  lemma ChunkSmall(s: seq<byte>, last: map<u32, Header>, peerMax: u32, remain: Option<u32>)
    requires Small(last)
    ensures
      var c := ParseChunk(s, last, peerMax, remain);
      c.Ok? ==> c.value.item.header.length < 0x100_0000
  {
    hide ReadN, PayloadSize, Get32, GetLE32;
    var b := ParseBasic(s);
    if b.Ok? {
      var h := ParseHeader(b.value.rest, b.value.item, last, remain.None?);
      if h.Ok? {
        assert h.value.item.length < 0x100_0000;
      }
    }
  }

  lemma {:induction false} AssembleSmall(s: seq<byte>, last: map<u32, Header>, peerMax: u32, m: Option<Message>)
    requires Small(last) && (m.Some? ==> m.value.length < 0x100_0000)
    ensures
      var a := Assemble(s, last, peerMax, m);
      a.Ok? ==> a.value.message.length < 0x100_0000 && Small(a.value.last)
    decreases |s|
  {
    hide ParseChunk;
    ChunkSmall(s, last, peerMax, RemainOf(m));
    ChunkSpends(s, last, peerMax, RemainOf(m));
    var c := ParseChunk(s, last, peerMax, RemainOf(m));
    if c.Ok? && (m.Some? || KnownType(c.value.item.header.messageType)) && Remain(Joined(m, c.value.item)) != 0 {
      AssembleSmall(c.value.rest, last[c.value.item.csid := c.value.item.header], peerMax, Some(Joined(m, c.value.item)));
    }
  }

  function Total(ms: seq<Message>): nat {
    if ms == [] then 0 else ms[0].length + Total(ms[1..])
  }

  /** Over any run of received messages that leaves the window alone, less than a window stays unacknowledged. */
  lemma {:induction false} RunAcknowledged(c: Conn, received: nat, acked: nat, n: nat) returns (received': nat, acked': nat)
    requires Stands(c, received, acked) && received - acked < c.window <= 0xFF00_0000 && Small(c.last)
    requires ReceiveN(c, n).Ok?
    requires forall m :: m in ReceiveN(c, n).value.messages ==> m.messageType != WINDOW_ACKNOWLEDGEMENT_SIZE
    ensures
      var c' := ReceiveN(c, n).value.conn;
      && Stands(c', received', acked') && c'.window == c.window
      && received' == received + Total(ReceiveN(c, n).value.messages)
      && received' - acked' < c.window
    decreases n
  {
    hide Assemble, Encoded, Stands;
    received', acked' := received, acked;
    if n != 0 {
      var r := Receive(c).value;
      var rs := ReceiveN(r.conn, n - 1).value;
      assert ReceiveN(c, n).value == ReceivedAll(rs.conn, [r.message] + rs.messages);
      assert ([r.message] + rs.messages)[1..] == rs.messages;
      assert r.message in ReceiveN(c, n).value.messages;
      AssembleSmall(c.input, c.last, c.peerMax, None);
      var received1 := received + r.message.length;
      var acked1 := if received1 - acked >= c.window then received1 else acked;
      CountersAfter(c, received, acked, received1, acked1);
      forall m | m in rs.messages
        ensures m.messageType != WINDOW_ACKNOWLEDGEMENT_SIZE
      {
        assert m in ReceiveN(c, n).value.messages;
      }
      received', acked' := RunAcknowledged(r.conn, received1, acked1, n - 1);
    }
  }

  lemma CountersAfter(c: Conn, received: nat, acked: nat, received1: nat, acked1: nat)
    requires Stands(c, received, acked) && received - acked < c.window <= 0xFF00_0000 && Small(c.last)
    requires Receive(c).Ok? && Receive(c).value.message.messageType != WINDOW_ACKNOWLEDGEMENT_SIZE
    requires received1 == received + Receive(c).value.message.length
    requires acked1 == if received1 - acked >= c.window then received1 else acked
    ensures
      var r := Receive(c).value;
      Stands(r.conn, received1, acked1) && r.conn.window == c.window && received1 - acked1 < c.window && Small(r.conn.last)
  {
    hide Assemble, Encoded, Acknowledge;
    AssembleSmall(c.input, c.last, c.peerMax, None);
    var a := Assemble(c.input, c.last, c.peerMax, None).value;
    var before := c.(input := a.rest, last := a.last);
    AcknowledgeRefines(before, received, acked, a.message.length);
    CountersOnly(before, a.message.length);
  }

  lemma CountersOnly(c: Conn, length: u32)
    ensures Acknowledge(c, length).window == c.window && Acknowledge(c, length).last == c.last
  {}
}
