/**
  Length-prefixed (AVCC) lists of NAL units: `AVCCFromNALs` of librtsp/rtp_unpack.go and
  `SplitAVCC` of librtsp/h264.go.
 */
module NalUnits {
  import opened Bytes
  import opened Wrappers

  /** The type of a NAL unit, from its first byte. */
  function NalType(header: byte): byte { header % 0x20 }

  /** Nonempty units whose lengths fit the prefix. */
  predicate Prefixable(nals: seq<seq<byte>>) {
    forall i :: 0 <= i < |nals| ==> 0 < |nals[i]| < 0x1_0000_0000
  }

  function Avcc(nals: seq<seq<byte>>): seq<byte> {
    if nals == [] then []
    else Put32(U32(|nals[0]|)) + nals[0] + Avcc(nals[1..])
  }

  method AVCCFromNALs(nals: seq<seq<byte>>) returns (out: seq<byte>)
    ensures out == Avcc(nals)
  {
    out := [];
    var i := 0;
    while i < |nals|
      invariant 0 <= i <= |nals|
      invariant out + Avcc(nals[i..]) == Avcc(nals)
    {
      assert nals[i..][1..] == nals[i + 1..];
      out := out + Put32(U32(|nals[i]|));
      out := out + nals[i];
      i := i + 1;
    }
  }

  /** The units up to the first prefix that is zero, or longer than what is left. */
  function Split(buf: seq<byte>): (nals: seq<seq<byte>>)
    ensures forall i :: 0 <= i < |nals| ==> 0 < |nals[i]| < |buf|
    decreases |buf|
  {
    if |buf| < 4 then []
    else
      var size := Get32(buf);
      if size == 0 || 4 + size > |buf| then []
      else [buf[4..4 + size]] + Split(buf[4 + size..])
  }

  /** One turn of a walk over the buffer. */
  lemma SplitStep(buf: seq<byte>, off: nat)
    requires off + 4 <= |buf|
    ensures
      var size := Get32(buf[off..]);
      Split(buf[off..])
      == if size == 0 || off + 4 + size > |buf| then []
         else [buf[off + 4..off + 4 + size]] + Split(buf[off + 4 + size..])
  {
    hide Get32;
    var rest := buf[off..];
    var size := Get32(rest);
    if size != 0 && off + 4 + size <= |buf| {
      assert rest[4..4 + size] == buf[off + 4..off + 4 + size];
      assert rest[4 + size..] == buf[off + 4 + size..];
    }
  }

  method SplitAVCC(buf: seq<byte>) returns (out: seq<seq<byte>>)
    ensures out == Split(buf)
  {
    hide *;
    out := [];
    var off := 0;
    assert buf[0..] == buf && [] + Split(buf) == Split(buf);
    while off + 4 <= |buf|
      invariant 0 <= off <= |buf|
      invariant out + Split(buf[off..]) == Split(buf)
    {
      SplitStep(buf, off);
      assert out + [] == out;
      var size := Get32(buf[off..]);
      off := off + 4;
      if size <= 0 || off + size > |buf| {
        return;
      }
      Regroup(out, [buf[off..off + size]], Split(buf[off + size..]));
      out := out + [buf[off..off + size]];
      off := off + size;
    }
    SplitShort(buf[off..]);
    assert out + [] == out;
  }

  lemma SplitShort(buf: seq<byte>)
    requires |buf| < 4
    ensures Split(buf) == []
  {}

  lemma PrefixRead(nal: seq<byte>, tail: seq<byte>)
    requires |nal| < 0x1_0000_0000
    ensures
      var buf := Put32(U32(|nal|)) + nal + tail;
      Get32(buf) == |nal| && buf[4..4 + |nal|] == nal && buf[4 + |nal|..] == tail
  {
    assert U32(|nal|) == |nal|;
    hide Put32, Get32, U32;
    Regroup(Put32(U32(|nal|)), nal, tail);
    GetPut32(|nal|, nal + tail);
  }

  lemma {:induction false} SplitJoined(nals: seq<seq<byte>>)
    requires Prefixable(nals)
    ensures Split(Avcc(nals)) == nals
  {
    if nals != [] {
      PrefixRead(nals[0], Avcc(nals[1..]));
      SplitJoined(nals[1..]);
    }
  }

  lemma Rejoin(buf: seq<byte>, size: nat)
    requires |buf| >= 4 && 4 + size <= |buf| && size == Get32(buf)
    ensures Put32(size) + buf[4..4 + size] + buf[4 + size..] == buf
  {
    PutGet32(buf[..4]);
    assert buf == buf[..4] + buf[4..4 + size] + buf[4 + size..];
  }

  lemma PrefixAfter(front: seq<byte>, a: seq<byte>, b: seq<byte>)
    requires a <= b
    ensures front + a <= front + b
  {}

  lemma {:induction false} AvccPrefix(buf: seq<byte>)
    ensures Avcc(Split(buf)) <= buf && Prefixable(Split(buf))
    decreases |buf|
  {
    hide *;
    if |buf| < 4 {
      SplitShort(buf);
      NoUnits();
    } else {
      var size: int := Get32(buf);
      assert buf[0..] == buf;
      SplitStep(buf, 0);
      if size == 0 || 4 + size > |buf| {
        NoUnits();
      } else {
        var nal, rest := buf[4..4 + size], buf[4 + size..];
        AvccPrefix(rest);
        Rejoin(buf, size);
        FirstPrefixed(nal, Split(rest));
        PrefixAfter(Put32(size) + nal, Avcc(Split(rest)), rest);
      }
    }
  }

  lemma NoUnits()
    ensures Avcc([]) == [] && Prefixable([])
  {}

  lemma FirstPrefixed(nal: seq<byte>, later: seq<seq<byte>>)
    requires 0 < |nal| < 0x1_0000_0000 && Prefixable(later)
    ensures Prefixable([nal] + later)
    ensures Avcc([nal] + later) == Put32(|nal|) + nal + Avcc(later)
  {
    hide Put32;
    assert ([nal] + later)[1..] == later && U32(|nal|) == |nal|;
  }

  /** Nothing is left over exactly when the buffer is a concatenation of prefixed units. */
  lemma SplitExact(buf: seq<byte>)
    ensures (exists nals :: Prefixable(nals) && Avcc(nals) == buf) <==> Avcc(Split(buf)) == buf
  {
    forall nals | Prefixable(nals) && Avcc(nals) == buf
      ensures Split(buf) == nals
    {
      SplitJoined(nals);
    }
    AvccPrefix(buf);
  }
}
