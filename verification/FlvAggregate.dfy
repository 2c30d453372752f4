/**
  FLV tags and the aggregate messages made of them: `AudioTag`, `VideoTag` and `FLVWrite` of
  libflv, and the walk of `AggregateMessage.Do` in librtmp/aggregate_message.go.
 */
module FlvAggregate {
  import opened Bytes
  import opened Wrappers

  datatype Tag =
    | Audio(timeStamp: u32, format: byte, rate: byte, size: byte, kind: byte, packetType: byte, data: seq<byte>)
    | Video(timeStamp: u32, frameType: byte, codec: byte, packetType: byte, cts: u32, data: seq<byte>)

  /** Of the tags written, AAC and Opus carry a packet type. */
  predicate Typed(format: byte) { format == 10 || format == 13 }

  /** Of the tags written, AVC, HEVC and AV1 carry a packet type and a composition offset. */
  predicate Timed(codec: byte) { codec == 7 || codec == 12 || codec == 13 }

  function Type(tag: Tag): byte { if tag.Audio? then 8 else 9 }

  /** `Marshal` of both tags. */
  function Body(tag: Tag): seq<byte> {
    match tag
    case Audio(_, format, rate, size, kind, packetType, data) =>
      [format % 0x10 * 0x10 + rate % 4 * 4 + size % 2 * 2 + kind % 2] + (if Typed(format) then [packetType] else []) + data
    case Video(_, frameType, codec, packetType, cts, data) =>
      [frameType % 0x10 * 0x10 + codec % 0x10] + (if Timed(codec) then [packetType] + Put24(cts) else []) + data
  }

  /** `ParseAudioTag`. */
  function ParseAudio(timeStamp: u32, b: seq<byte>): Option<Tag> {
    if |b| <= 1 then None
    else
      var format := b[0] / 0x10;
      var typed := format == 10 || format == 13;
      Some(Audio(timeStamp, format, b[0] / 4 % 4, b[0] / 2 % 2, b[0] % 2,
                 if typed then b[1] else 0, if typed then b[2..] else b[1..]))
  }

  /** `ParseVideoTag`. */
  function ParseVideo(timeStamp: u32, b: seq<byte>): Option<Tag> {
    if |b| < 1 then None
    else
      var codec := b[0] % 0x10;
      if codec != 7 && codec != 12 && codec != 13 then Some(Video(timeStamp, b[0] / 0x10, codec, 0, 0, b[1..]))
      else if |b| < 5 then None
      else Some(Video(timeStamp, b[0] / 0x10, codec, b[1], Get24(b[2..]), b[5..]))
  }

  function Parse(kind: byte, timeStamp: u32, b: seq<byte>): Option<Tag> {
    if kind == 8 then ParseAudio(timeStamp, b) else ParseVideo(timeStamp, b)
  }

  /** Fields within their bits, none set that the body does not carry; and untyped audio has data. */
  predicate Survives(tag: Tag) {
    match tag
    case Audio(_, format, rate, size, kind, packetType, data) =>
      && format < 0x10 && rate < 4 && size < 2 && kind < 2
      && (!Typed(format) ==> packetType == 0 && data != [])
    case Video(_, frameType, codec, packetType, cts, _) =>
      && frameType < 0x10 && codec < 0x10
      && (if Timed(codec) then cts < 0x100_0000 else packetType == 0 && cts == 0)
  }

  lemma AudioByte(format: byte, rate: byte, size: byte, kind: byte)
    ensures
      var b := format % 0x10 * 0x10 + rate % 4 * 4 + size % 2 * 2 + kind % 2;
      && b / 0x10 == format % 0x10 && b / 4 % 4 == rate % 4 && b / 2 % 2 == size % 2 && b % 2 == kind % 2
  {
    Fields(format % 0x10, rate % 4, size % 2, kind % 2);
  }

  lemma Fields(h: int, r: int, s: int, k: int)
    requires 0 <= h < 0x10 && 0 <= r < 4 && 0 <= s < 2 && 0 <= k < 2
    ensures
      var b := h * 0x10 + r * 4 + s * 2 + k;
      b / 0x10 == h && b / 4 % 4 == r && b / 2 % 2 == s && b % 2 == k
  {
    var b := h * 0x10 + r * 4 + s * 2 + k;
    assert b / 4 == h * 4 + r && b / 2 == h * 8 + r * 2 + s;
  }

  lemma AudioRead(tag: Tag)
    requires tag.Audio?
    ensures ParseAudio(tag.timeStamp, Body(tag)) == Some(tag) <==> Survives(tag)
  {
    AudioByte(tag.format, tag.rate, tag.size, tag.kind);
    var b := Body(tag);
    if Typed(tag.format) {
      assert b[2..] == tag.data;
    } else {
      assert b[1..] == tag.data;
    }
  }

  lemma VideoByte(frameType: byte, codec: byte)
    ensures
      var b := frameType % 0x10 * 0x10 + codec % 0x10;
      b < 0x100 && b / 0x10 == frameType % 0x10 && b % 0x10 == codec % 0x10
  {}

  lemma VideoParts(tag: Tag)
    requires tag.Video?
    ensures
      var b := Body(tag);
      && b != [] && b[0] / 0x10 == tag.frameType % 0x10 && b[0] % 0x10 == tag.codec % 0x10
      && if Timed(tag.codec) then
           |b| >= 5 && b[1] == tag.packetType && Get24(b[2..]) == tag.cts % 0x100_0000 && b[5..] == tag.data
         else b[1..] == tag.data
  {
    VideoByte(tag.frameType, tag.codec);
    hide Put24, Get24;
    var b := Body(tag);
    if Timed(tag.codec) {
      assert b[2..] == Put24(tag.cts) + tag.data && b[5..] == tag.data;
      GetPut24(tag.cts, tag.data);
    } else {
      assert b[1..] == tag.data;
    }
  }

  lemma VideoRead(tag: Tag)
    requires tag.Video?
    ensures ParseVideo(tag.timeStamp, Body(tag)) == Some(tag) <==> Survives(tag)
  {
    VideoParts(tag);
    hide Body, Get24;
  }

  /** A tag's body reads back as the tag exactly when the tag survives. */
  lemma BodyRead(tag: Tag)
    ensures Parse(Type(tag), tag.timeStamp, Body(tag)) == Some(tag) <==> Survives(tag)
  {
    if tag.Audio? {
      AudioRead(tag);
    } else {
      VideoRead(tag);
    }
  }

  lemma ParseStamp(kind: byte, a: u32, b: u32, body: seq<byte>)
    ensures Parse(kind, a, body).None? <==> Parse(kind, b, body).None?
    ensures Parse(kind, a, body).Some? ==> Parse(kind, b, body) == Some(Parse(kind, a, body).value.(timeStamp := b))
  {}

  // ----- Tags in a file or an aggregate -----

  function Header(kind: byte, length: u32, timeStamp: u32): (h: seq<byte>)
    ensures |h| == 11
  {
    [kind] + (Put24(length) + (Put24(timeStamp) + ([timeStamp / 0x100_0000] + [0, 0, 0])))
  }

  function TagBytes(tag: Tag): (b: seq<byte>)
    ensures |b| == 15 + |Body(tag)|
  {
    Header(Type(tag), U32(|Body(tag)|), tag.timeStamp) + Body(tag) + Put32(U32(11 + |Body(tag)|))
  }

  /** `Marshal` of an audio and of a video tag. */
  method Marshal(tag: Tag) returns (b: seq<byte>)
    ensures b == Body(tag)
  {
    match tag {
      case Audio(_, format, rate, size, kind, packetType, data) =>
        b := [format % 0x10 * 0x10 + rate % 4 * 4 + size % 2 * 2 + kind % 2];
        if Typed(format) {
          b := b + [packetType];
        }
        b := b + data;
      case Video(_, frameType, codec, packetType, cts, data) =>
        b := [frameType % 0x10 * 0x10 + codec % 0x10];
        if Timed(codec) {
          b := b + [packetType];
          b := b + [U8(cts / 0x100 / 0x100), U8(cts / 0x100), U8(cts)];
        }
        b := b + data;
    }
  }

  method ParseAudioTag(timeStamp: u32, b: seq<byte>) returns (r: Option<Tag>)
    ensures r == ParseAudio(timeStamp, b)
  {
    if |b| <= 1 {
      return None;
    }
    var packetType: byte, soundData := 0, b[1..];
    var format := b[0] / 0x10;
    if format == 10 || format == 13 {
      packetType := b[1];
      soundData := b[2..];
    }
    return Some(Audio(timeStamp, format, b[0] / 4 % 4, b[0] / 2 % 2, b[0] % 2, packetType, soundData));
  }

  method ParseVideoTag(timeStamp: u32, b: seq<byte>) returns (r: Option<Tag>)
    ensures r == ParseVideo(timeStamp, b)
  {
    if |b| < 1 {
      return None;
    }
    var packetType: byte, cts: u32, videoData := 0, 0, b[1..];
    var codec := b[0] % 0x10;
    if codec == 7 || codec == 12 || codec == 13 {
      if |b| < 5 {
        return None;
      }
      packetType := b[1];
      cts := Get24(b[2..]);
      videoData := b[5..];
    }
    return Some(Video(timeStamp, b[0] / 0x10, codec, packetType, cts, videoData));
  }

  method FLVWrite(tag: Tag) returns (b: seq<byte>)
    ensures b == TagBytes(tag)
  {
    hide Body;
    b := [];
    match tag {
      case Audio(_, _, _, _, _, _, _) => b := b + [8];
      case Video(_, _, _, _, _, _) => b := b + [9];
    }
    var data := Marshal(tag);
    var sb := Put32(U32(|data|));
    b := b + [sb[1], sb[2], sb[3]];
    var ts := tag.timeStamp;
    sb := Put32(ts);
    b := b + [sb[1], sb[2], sb[3], sb[0]];
    b := b + [0x0, 0x0, 0x0];
    assert b == Header(Type(tag), U32(|data|), ts);
    b := b + data;
    var prev := Put32(U32(|b|));
    b := b + prev;
  }

  function AllTags(tags: seq<Tag>): seq<byte> {
    if tags == [] then [] else TagBytes(tags[0]) + AllTags(tags[1..])
  }

  // ----- The walk -----

  /** What a sub-message is handed on as. */
  datatype Delivered = Media(tag: Tag) | Data(timeStamp: u32, payload: seq<byte>)

  datatype Outcome = Outcome(delivered: seq<Delivered>, ok: bool)

  function StampOf(p: seq<byte>): u32
    requires |p| >= 11
  {
    Get24(p[4..]) % 0x100_0000 + p[7] as int * 0x100_0000
  }

  /** One sub-message: nothing for a type that is skipped, None when its body does not parse. */
  function Handed(kind: byte, timeStamp: u32, body: seq<byte>): Option<seq<Delivered>> {
    if kind == 8 || kind == 9 then
      var tag := Parse(kind, timeStamp, body);
      if tag.None? then None else Some([Media(tag.value)])
    else if kind == 15 || kind == 18 then Some([Data(timeStamp, body)])
    else Some([])
  }

  function From(p: seq<byte>, n: nat): seq<byte> { if n > |p| then [] else p[n..] }

  /** What one sub-message leads to: the end, an error, or what is handed on and what is left. */
  datatype Turn = End | Error | Next(delivered: seq<Delivered>, rest: seq<byte>, base: u32)

  /** The first stamp is the one all others are relative to. */
  function TurnOf(p: seq<byte>, first: Option<u32>, time: u32): (t: Turn)
    ensures t.Next? ==> |t.rest| < |p|
  {
    if |p| < 11 then End
    else
      var end := 11 + Get24(p[1..]);
      if end > |p| then Error
      else
        var base := if first.Some? then first.value else StampOf(p);
        var handed := Handed(p[0], U32(time + U32(StampOf(p) - base)), p[11..end]);
        if handed.None? then Error else Next(handed.value, From(p, end + 4), base)
  }

  function Walk(p: seq<byte>, first: Option<u32>, time: u32): Outcome
    decreases |p|
  {
    match TurnOf(p, first, time)
    case End => Outcome([], true)
    case Error => Outcome([], false)
    case Next(delivered, rest, base) =>
      var later := Walk(rest, Some(base), time);
      Outcome(delivered + later.delivered, later.ok)
  }

  lemma TurnAt(payload: seq<byte>, off: nat, first: Option<u32>, time: u32)
    requires off + 11 <= |payload|
    ensures
      var p := payload[off..];
      var end := off + 11 + Get24(payload[off + 1..]);
      TurnOf(p, first, time)
      == if end > |payload| then Error
         else
           var base := if first.Some? then first.value else StampOf(p);
           var handed := Handed(payload[off], U32(time + U32(StampOf(p) - base)), payload[off + 11..end]);
           if handed.None? then Error else Next(handed.value, From(payload, end + 4), base)
  {
    hide Get24, Handed, StampOf, U32;
    var p := payload[off..];
    var end := off + 11 + Get24(p[1..]);
    assert p[1..] == payload[off + 1..];
    if end <= |payload| {
      assert p[11..end - off] == payload[off + 11..end];
      assert From(p, end - off + 4) == From(payload, end + 4);
    }
  }

  /** The switch over the sub-message type, with the parsing of what it builds. */
  method Route(kind: byte, timeStamp: u32, body: seq<byte>) returns (r: Option<seq<Delivered>>)
    ensures r == Handed(kind, timeStamp, body)
  {
    hide ParseAudio, ParseVideo;
    if kind == 8 || kind == 9 {
      var tag;
      if kind == 8 {
        tag := ParseAudioTag(timeStamp, body);
      } else {
        tag := ParseVideoTag(timeStamp, body);
      }
      if tag.None? {
        return None;
      }
      return Some([Media(tag.value)]);
    } else if kind == 15 || kind == 18 {
      return Some([Data(timeStamp, body)]);
    }
    return Some([]);
  }

  /** One turn of the walk: it ends with an error, or hands on what it found and goes on behind the back pointer. */
  lemma WalkTurn(payload: seq<byte>, off: nat, first: Option<u32>, time: u32)
    requires off + 11 <= |payload|
    ensures
      var end := off + 11 + Get24(payload[off + 1..]);
      && |payload[off..]| >= 11
      && var base := if first.Some? then first.value else StampOf(payload[off..]);
      Walk(From(payload, off), first, time)
      == if end > |payload| then Outcome([], false)
         else
           var handed := Handed(payload[off], U32(time + U32(StampOf(payload[off..]) - base)), payload[off + 11..end]);
           if handed.None? then Outcome([], false)
           else
             var later := Walk(From(payload, end + 4), Some(base), time);
             Outcome(handed.value + later.delivered, later.ok)
  {
    TurnAt(payload, off, first, time);
    hide TurnOf, Get24, Handed, StampOf, U32;
  }

  /** `AggregateMessage.Do`: what reaches the room, and whether the walk ends without an error. */
  method Do(payload: seq<byte>, messageTime: u32) returns (ok: bool, delivered: seq<Delivered>)
    ensures Outcome(delivered, ok) == Walk(payload, None, messageTime)
  {
    hide *;
    delivered := [];
    var firstSubTS, gotFirst := 0, false;
    var off := 0;
    ghost var all := Walk(payload, None, messageTime);
    FromStart(payload);
    Nothing(all);
    while off + 11 <= |payload|
      invariant 0 <= off
      invariant all == After(delivered, Walk(From(payload, off), if gotFirst then Some(firstSubTS) else None, messageTime))
    {
      WalkTurn(payload, off, if gotFirst then Some(firstSubTS) else None, messageTime);
      Stopped(delivered);
      var subLen := Get24(payload[off + 1..]);
      var ts := StampOf(payload[off..]);
      var headerEnd := off + 11;
      var bodyEnd := headerEnd + subLen;
      if bodyEnd > |payload| {
        return false, delivered;
      }
      if !gotFirst {
        firstSubTS := ts;
        gotFirst := true;
      }
      var rebased := U32(messageTime + U32(ts as int - firstSubTS));
      var sub := Route(payload[off], rebased, payload[headerEnd..bodyEnd]);
      if sub.None? {
        return false, delivered;
      }
      AfterTwo(delivered, sub.value, Walk(From(payload, bodyEnd + 4), Some(firstSubTS), messageTime));
      delivered := delivered + sub.value;
      off := bodyEnd + 4;
    }
    Ended(payload, off, if gotFirst then Some(firstSubTS) else None, messageTime);
    Stopped(delivered);
    return true, delivered;
  }

  /** The outcome when this much was handed on before. */
  function After(delivered: seq<Delivered>, later: Outcome): Outcome {
    Outcome(delivered + later.delivered, later.ok)
  }

  lemma FromStart(payload: seq<byte>)
    ensures From(payload, 0) == payload
  {}

  lemma Nothing(later: Outcome)
    ensures After([], later) == later
  {
    assert [] + later.delivered == later.delivered;
  }

  lemma Stopped(delivered: seq<Delivered>)
    ensures After(delivered, Outcome([], false)) == Outcome(delivered, false)
    ensures After(delivered, Outcome([], true)) == Outcome(delivered, true)
  {
    assert delivered + [] == delivered;
  }

  lemma AfterTwo(a: seq<Delivered>, b: seq<Delivered>, later: Outcome)
    ensures After(a + b, later) == After(a, Outcome(b + later.delivered, later.ok))
  {
    Regroup(a, b, later.delivered);
  }

  lemma Ended(payload: seq<byte>, off: nat, first: Option<u32>, time: u32)
    requires off + 11 > |payload|
    ensures Walk(From(payload, off), first, time) == Outcome([], true)
  {}

  // ----- What the walk accepts -----

  /** A media body long enough for its header; an audio body holds at least one byte more. */
  predicate Parses(kind: byte, b: seq<byte>) {
    if kind == 8 then |b| >= 2
    else if kind == 9 then b != [] && (Timed(b[0] % 0x10) ==> |b| >= 5)
    else true
  }

  /** Sub-messages within the payload whose bodies are long enough, up to a rest shorter than a header. */
  predicate Intact(p: seq<byte>)
    decreases |p|
  {
    |p| < 11
    || var end := 11 + Get24(p[1..]);
       end <= |p| && Parses(p[0], p[11..end]) && Intact(From(p, end + 4))
  }

  /** Whether the walk ends without an error depends on lengths alone. */
  lemma {:induction false} WalkIntact(p: seq<byte>, first: Option<u32>, time: u32)
    ensures Walk(p, first, time).ok <==> Intact(p)
    decreases |p|
  {
    hide Get24, StampOf, U32;
    var turn := TurnOf(p, first, time);
    if turn.Next? {
      WalkIntact(turn.rest, Some(turn.base), time);
    }
  }

  // ----- What is written is walked back -----

  lemma HeaderRead(kind: byte, length: u32, timeStamp: u32, tail: seq<byte>)
    requires length < 0x100_0000
    ensures
      var p := Header(kind, length, timeStamp) + tail;
      && p[0] == kind && Get24(p[1..]) == length && StampOf(p) == timeStamp && p[11..] == tail
  {
    hide Get24, Put24;
    var p := Header(kind, length, timeStamp) + tail;
    var stamp := Put24(timeStamp) + ([timeStamp / 0x100_0000] + [0, 0, 0] + tail);
    assert p[1..] == Put24(length) + stamp;
    assert p[4..] == stamp;
    GetPut24(length, stamp);
    GetPut24(timeStamp, [timeStamp / 0x100_0000] + [0, 0, 0] + tail);
  }

  /** Timestamps counted from the first tag's, which gets the container's time. */
  function Rebased(tags: seq<Tag>, base: u32, time: u32): (r: seq<Delivered>)
    ensures |r| == |tags|
  {
    if tags == [] then []
    else [Media(tags[0].(timeStamp := U32(time + U32(tags[0].timeStamp - base))))] + Rebased(tags[1..], base, time)
  }

  predicate Short(tags: seq<Tag>) {
    forall i :: 0 <= i < |tags| ==> |Body(tags[i])| < 0x100_0000
  }

  predicate AllSurvive(tags: seq<Tag>) {
    forall i :: 0 <= i < |tags| ==> Survives(tags[i])
  }

  lemma BehindHeader(body: seq<byte>, back: seq<byte>, tail: seq<byte>)
    ensures
      var rest := body + (back + tail);
      rest[..|body|] == body && rest[|body| + |back|..] == tail
  {}

  lemma TagParts(tag: Tag, tail: seq<byte>)
    requires |Body(tag)| < 0x100_0000
    ensures
      var n := |Body(tag)|;
      var p := TagBytes(tag) + tail;
      && |p| >= 15 + n && p[0] == Type(tag) && Get24(p[1..]) == n && StampOf(p) == tag.timeStamp
      && p[11..11 + n] == Body(tag) && From(p, 15 + n) == tail
  {
    hide *;
    var body, back := Body(tag), Put32(U32(11 + |Body(tag)|));
    var behind := body + (back + tail);
    TagLaid(tag, tail);
    HeaderRead(Type(tag), |body|, tag.timeStamp, behind);
    BehindHeader(body, back, tail);
    RestFrom(TagBytes(tag) + tail, |body|, behind, tail);
  }

  lemma TagLaid(tag: Tag, tail: seq<byte>)
    requires |Body(tag)| < 0x100_0000
    ensures
      var body := Body(tag);
      && TagBytes(tag) + tail == Header(Type(tag), |body|, tag.timeStamp) + (body + (Put32(U32(11 + |body|)) + tail))
      && |Put32(U32(11 + |body|))| == 4
  {
    var body := Body(tag);
    assert U32(|body|) == |body|;
    hide *;
    var h, back := Header(Type(tag), |body|, tag.timeStamp), Put32(U32(11 + |body|));
    assert TagBytes(tag) == h + body + back;
    Regroup(h + body, back, tail);
    Regroup(h, body, back + tail);
  }

  lemma RestFrom(p: seq<byte>, n: nat, behind: seq<byte>, tail: seq<byte>)
    requires |p| >= 15 + n && p[11..] == behind && |behind| >= n + 4 && behind[n + 4..] == tail
    ensures p[11..11 + n] == behind[..n] && From(p, 15 + n) == tail
  {
    SliceOfRest(p, 11, n);
  }

  lemma SliceOfRest(p: seq<byte>, k: nat, n: nat)
    requires k + n + 4 <= |p|
    ensures p[k..k + n] == p[k..][..n] && p[k + n + 4..] == p[k..][n + 4..]
  {
  }

  lemma TagTurn(tag: Tag, tail: seq<byte>, first: Option<u32>, time: u32)
    requires |Body(tag)| < 0x100_0000
    ensures
      var base := if first.Some? then first.value else tag.timeStamp;
      var handed := Handed(Type(tag), U32(time + U32(tag.timeStamp - base)), Body(tag));
      TurnOf(TagBytes(tag) + tail, first, time) == if handed.None? then Error else Next(handed.value, tail, base)
  {
    hide *;
    TagParts(tag, tail);
    TurnIs(TagBytes(tag) + tail, |Body(tag)|, first, time);
  }

  lemma TurnIs(p: seq<byte>, n: nat, first: Option<u32>, time: u32)
    requires |p| >= 15 + n && Get24(p[1..]) == n
    ensures
      var base := if first.Some? then first.value else StampOf(p);
      var handed := Handed(p[0], U32(time + U32(StampOf(p) - base)), p[11..11 + n]);
      TurnOf(p, first, time) == if handed.None? then Error else Next(handed.value, From(p, 15 + n), base)
  {
    hide Handed, Get24, StampOf, U32, From;
  }

  lemma HeaderFields(kind: byte, length: u32, timeStamp: u32)
    requires length < 0x100_0000
    ensures
      var h := Header(kind, length, timeStamp);
      && h[0] == kind && Get24(h[1..4]) == length && h[8..11] == [0, 0, 0]
      && Get24(h[4..7]) + h[7] as int * 0x100_0000 == timeStamp
  {
    hide Get24, Put24;
    var h := Header(kind, length, timeStamp);
    GetPut24(length, []);
    GetPut24(timeStamp, []);
    assert h[1..4] == Put24(length) + [] && h[4..7] == Put24(timeStamp) + [];
  }

  lemma ThreeParts(h: seq<byte>, body: seq<byte>, back: seq<byte>)
    requires |h| == 11
    ensures
      var b := h + body + back;
      && b[0] == h[0] && b[1..4] == h[1..4] && b[4..7] == h[4..7] && b[7] == h[7] && b[8..11] == h[8..11]
      && b[11..11 + |body|] == body && b[11 + |body|..] == back
  {}

  /** A tag in a file, read field by field: type, length, time with its high byte last, stream 0, body, size of it all. */
  lemma TagLaidOut(tag: Tag)
    requires |Body(tag)| < 0x100_0000
    ensures
      var b := TagBytes(tag);
      var n := |Body(tag)|;
      && |b| == 15 + n && b[0] == (if tag.Audio? then 8 else 9)
      && Get24(b[1..4]) == n && Get24(b[4..7]) + b[7] as int * 0x100_0000 == tag.timeStamp && b[8..11] == [0, 0, 0]
      && b[11..11 + n] == Body(tag) && Get32(b[11 + n..]) == 11 + n
  {
    var n := |Body(tag)|;
    assert U32(n) == n && U32(11 + n) == 11 + n;
    hide Body, Get24, Put24, Put32, Get32, Header;
    HeaderFields(Type(tag), n, tag.timeStamp);
    ThreeParts(Header(Type(tag), n, tag.timeStamp), Body(tag), Put32(11 + n));
    GetPut32(11 + n, []);
    assert Put32(11 + n) + [] == Put32(11 + n);
  }

  /**
    Tags of bodies below 2^24, written one behind the other and walked as an aggregate: exactly
    these tags come out, in order and rebased, if and only if every one of them survives.
   */
  lemma {:induction false} TagsWalked(tags: seq<Tag>, first: Option<u32>, time: u32)
    requires Short(tags)
    ensures
      var base := if first.Some? then first.value else if tags == [] then 0 else tags[0].timeStamp;
      Walk(AllTags(tags), first, time) == Outcome(Rebased(tags, base, time), true) <==> AllSurvive(tags)
    decreases |tags|
  {
    hide Body, Survives, TurnOf, U32, AllSurvive, Handed, TagBytes;
    if tags == [] {
      assert AllSurvive(tags) by { NoTags(); }
      assert Walk(AllTags(tags), first, time) == Outcome([], true) by { Ended([], 0, first, time); }
    } else {
      var tag := tags[0];
      var base := if first.Some? then first.value else tag.timeStamp;
      var at := U32(time + U32(tag.timeStamp - base));
      var rest := Walk(AllTags(tags[1..]), Some(base), time);
      TagTurn(tag, AllTags(tags[1..]), first, time);
      TagsWalked(tags[1..], Some(base), time);
      TagHanded(tag, at);
      SurviveCons(tags);
      var handed := Handed(Type(tag), at, Body(tag));
      if handed.Some? {
        SameHead(handed.value[0], rest.delivered, Media(tag.(timeStamp := at)), Rebased(tags[1..], base, time));
        assert handed.value == [handed.value[0]];
      }
    }
  }

  lemma NoTags()
    ensures AllSurvive([])
  {}

  lemma TagHanded(tag: Tag, at: u32)
    ensures
      var handed := Handed(Type(tag), at, Body(tag));
      && (handed.Some? ==> |handed.value| == 1)
      && (handed == Some([Media(tag.(timeStamp := at))]) <==> Survives(tag))
  {
    BodyRead(tag);
    ParseStamp(Type(tag), tag.timeStamp, at, Body(tag));
    ParseStamp(Type(tag), at, tag.timeStamp, Body(tag));
    hide Body, Survives, Parse;
    var handed := Handed(Type(tag), at, Body(tag));
    var one := [Media(tag.(timeStamp := at))];
    if handed == Some(one) {
      assert handed.value[0] == one[0];
      assert Parse(Type(tag), at, Body(tag)) == Some(tag.(timeStamp := at));
    }
  }

  lemma SurviveCons(tags: seq<Tag>)
    requires tags != []
    ensures AllSurvive(tags) <==> Survives(tags[0]) && AllSurvive(tags[1..])
  {
    assert forall i :: 0 < i < |tags| ==> tags[i] == tags[1..][i - 1];
  }

  lemma SameHead(a: Delivered, s: seq<Delivered>, b: Delivered, t: seq<Delivered>)
    ensures [a] + s == [b] + t <==> a == b && s == t
  {
    assert ([a] + s)[1..] == s && ([b] + t)[1..] == t;
    assert ([a] + s)[0] == a && ([b] + t)[0] == b;
  }

  /** All pairwise differences of time are kept modulo 2^32, and the first tag gets the container's time. */
  lemma DifferencesKept(tags: seq<Tag>, time: u32, i: nat, j: nat)
    requires i < |tags| && j < |tags|
    ensures
      var r := Rebased(tags, tags[0].timeStamp, time);
      && r[i].Media? && r[j].Media? && r[0].Media?
      && U32(r[j].tag.timeStamp - r[i].tag.timeStamp) == U32(tags[j].timeStamp - tags[i].timeStamp)
      && r[0].tag.timeStamp == time
  {
    RebasedAt(tags, tags[0].timeStamp, time, i);
    RebasedAt(tags, tags[0].timeStamp, time, j);
    RebasedAt(tags, tags[0].timeStamp, time, 0);
    Shifted(time, tags[0].timeStamp, tags[i].timeStamp, tags[j].timeStamp);
  }

  lemma {:induction false} RebasedAt(tags: seq<Tag>, base: u32, time: u32, i: nat)
    requires i < |tags|
    ensures
      Rebased(tags, base, time)[i] == Media(tags[i].(timeStamp := U32(time + U32(tags[i].timeStamp - base))))
  {
    if i > 0 {
      RebasedAt(tags[1..], base, time, i - 1);
    }
  }

  lemma Shifted(time: u32, base: u32, a: u32, b: u32)
    ensures U32(U32(time + U32(b - base)) - U32(time + U32(a - base))) == U32(b - a)
    ensures U32(time + U32(base - base)) == time
  {
    assert U32(0) == 0 && U32(time) == time;
    Rebase(time, base, a);
    Rebase(time, base, b);
    hide U32;
    U32Minus(time + b - base, time + a - base);
  }

  lemma Rebase(time: u32, base: u32, a: u32)
    ensures U32(time + U32(a - base)) == U32(time + a - base)
  {}
}
