/**
  Start-coded (Annex B) streams of NAL units: `avccToAnnexB` of libhls/hls.go, `splitAnnexB` of
  librtmp/srt_server.go and `containsAnnexBKeyframe` of libsrt/tsdemux.go.
 */
module AnnexB {
  import opened Bytes
  import opened NalUnits
  import opened Wrappers
  import TsDemux

  const START_CODE: seq<byte> := [0, 0, 0, 1]

  function Coded(nals: seq<seq<byte>>): seq<byte> {
    if nals == [] then [] else START_CODE + nals[0] + Coded(nals[1..])
  }

  lemma CodedStep(out: seq<byte>, unit: seq<byte>, later: seq<seq<byte>>)
    ensures out + START_CODE + unit + Coded(later) == out + Coded([unit] + later)
    ensures out + Coded([]) == out
  {
    assert ([unit] + later)[1..] == later;
    assert out + START_CODE + unit + Coded(later) == out + (START_CODE + unit + Coded(later));
  }

  method AvccToAnnexB(buf: seq<byte>) returns (out: seq<byte>)
    ensures out == Coded(Split(buf))
  {
    hide Coded, Get32;
    out := [];
    var off := 0;
    assert buf[0..] == buf;
    while off + 4 <= |buf|
      invariant 0 <= off <= |buf|
      invariant out + Coded(Split(buf[off..])) == Coded(Split(buf))
    {
      hide Split;
      SplitStep(buf, off);
      CodedStep(out, [], []);
      var size := Get32(buf[off..]);
      off := off + 4;
      if size <= 0 || off + size > |buf| {
        return;
      }
      CodedStep(out, buf[off..off + size], Split(buf[off + size..]));
      out := out + [0x00, 0x00, 0x00, 0x01];
      out := out + buf[off..off + size];
      off := off + size;
    }
    CodedStep(out, [], []);
  }

  // ----- Scanning for start codes -----

  predicate CodeAt(buf: seq<byte>, j: nat) {
    j + 2 < |buf| && buf[j] == 0 && buf[j + 1] == 0 && buf[j + 2] == 1
  }

  /** No three-byte start code inside. */
  predicate Clean(nal: seq<byte>) {
    forall j :: 0 <= j < |nal| ==> !CodeAt(nal, j)
  }

  /** The first three-byte start code from i on, or the length of the buffer. */
  function FirstCode(buf: seq<byte>, i: nat): (j: nat)
    requires i <= |buf|
    ensures i <= j <= |buf|
    ensures j < |buf| ==> CodeAt(buf, j)
    ensures forall k :: i <= k < j ==> !CodeAt(buf, k)
    decreases |buf| - i
  {
    if i == |buf| || CodeAt(buf, i) then i else FirstCode(buf, i + 1)
  }

  /** Where the unit that starts at nalStart ends: a zero before the next code belongs to the code. */
  function UnitEnd(buf: seq<byte>, nalStart: nat): (end: nat)
    requires nalStart <= |buf|
    ensures nalStart <= end <= |buf|
  {
    var j := FirstCode(buf, nalStart);
    if j < |buf| && j > nalStart && buf[j - 1] == 0 then j - 1 else j
  }

  function UnitsFrom(buf: seq<byte>, i: nat): seq<seq<byte>>
    requires i <= |buf|
    decreases |buf| - i
  {
    var j := FirstCode(buf, i);
    if j == |buf| then []
    else
      var end := UnitEnd(buf, j + 3);
      (if end > j + 3 then [buf[j + 3..end]] else []) + UnitsFrom(buf, end)
  }

  lemma FirstCodeIs(buf: seq<byte>, i: nat, j: nat)
    requires i <= j <= |buf|
    requires j < |buf| ==> CodeAt(buf, j)
    requires forall k :: i <= k < j ==> !CodeAt(buf, k)
    ensures FirstCode(buf, i) == j
  {}

  lemma UnitEndIs(buf: seq<byte>, nalStart: nat, j: nat)
    requires nalStart <= j <= |buf|
    requires j < |buf| ==> CodeAt(buf, j)
    requires forall k :: nalStart <= k < j ==> !CodeAt(buf, k)
    ensures UnitEnd(buf, nalStart) == if j < |buf| && j > nalStart && buf[j - 1] == 0 then j - 1 else j
  {
    FirstCodeIs(buf, nalStart, j);
  }

  lemma UnitsStep(buf: seq<byte>, i: nat)
    requires i <= |buf| && FirstCode(buf, i) < |buf|
    ensures
      var start := FirstCode(buf, i) + 3;
      var end := UnitEnd(buf, start);
      && i < end
      && UnitsFrom(buf, i) == (if end > start then [buf[start..end]] else []) + UnitsFrom(buf, end)
  {}

  lemma UnitsEnd(buf: seq<byte>, i: nat)
    requires i <= |buf|
    requires forall k :: i <= k < |buf| ==> !CodeAt(buf, k)
    ensures UnitsFrom(buf, i) == []
  {
    FirstCodeIs(buf, i, |buf|);
  }

  method SplitAnnexB(buf: seq<byte>) returns (out: seq<seq<byte>>)
    ensures out == UnitsFrom(buf, 0)
  {
    hide UnitsFrom, FirstCode, UnitEnd;
    out := [];
    var i := 0;
    while i < |buf|
      invariant 0 <= i <= |buf|
      invariant out + UnitsFrom(buf, i) == UnitsFrom(buf, 0)
      decreases |buf| - i
    {
      var start, scLen := -1, 0;
      var j := i;
      while j + 2 < |buf|
        invariant i <= j <= |buf|
        invariant start == -1
        invariant forall k :: i <= k < j ==> !CodeAt(buf, k)
      {
        if buf[j] == 0 && buf[j + 1] == 0 && buf[j + 2] == 1 {
          start := j;
          scLen := 3;
          if j > 0 && buf[j - 1] == 0 {
            start := j - 1;
            scLen := 4;
          }
          break;
        }
        j := j + 1;
      }
      if start < 0 {
        UnitsEnd(buf, i);
        return;
      }
      FirstCodeIs(buf, i, j);
      var nalStart := start + scLen;
      var end := |buf|;
      j := nalStart;
      while j + 2 < |buf|
        invariant nalStart <= j <= |buf|
        invariant end == |buf|
        invariant forall k :: nalStart <= k < j ==> !CodeAt(buf, k)
      {
        if buf[j] == 0 && buf[j + 1] == 0 && buf[j + 2] == 1 {
          end := j;
          if j > nalStart && buf[j - 1] == 0 {
            end := j - 1;
          }
          break;
        }
        j := j + 1;
      }
      UnitEndIs(buf, nalStart, if j + 2 < |buf| then j else |buf|);
      UnitsStep(buf, i);
      assert end == UnitEnd(buf, nalStart);
      Regroup(out, if end > nalStart then [buf[nalStart..end]] else [], UnitsFrom(buf, end));
      if end > nalStart {
        out := out + [buf[nalStart..end]];
      } else {
        assert out + [] == out;
      }
      i := end;
    }
    UnitsEnd(buf, i);
  }

  // ----- Round trip -----

  predicate Separable(nals: seq<seq<byte>>) {
    forall i :: 0 <= i < |nals| ==> nals[i] != [] && Clean(nals[i])
  }

  /** Between two units nothing looks like a start code but the start code, whatever zeros the first ends in. */
  lemma NoCodeBefore(front: seq<byte>, nal: seq<byte>, tail: seq<byte>, k: nat)
    requires Clean(nal) && (tail == [] || START_CODE <= tail)
    requires |front| <= k < |front + nal + tail| && k <= |front + nal|
    ensures !CodeAt(front + nal + tail, k)
  {
    var buf := front + nal + tail;
    if CodeAt(buf, k) {
      assert forall m :: |front| <= m < |front + nal| ==> buf[m] == nal[m - |front|];
      assert tail != [] ==> forall m :: 0 <= m < 4 ==> buf[|front + nal| + m] == tail[m] == START_CODE[m];
      if k + 2 < |front + nal| {
        assert CodeAt(nal, k - |front|);
      }
    }
  }

  lemma CodedHead(nals: seq<seq<byte>>)
    ensures Coded(nals) == [] <==> nals == []
    ensures nals != [] ==> START_CODE <= Coded(nals)
  {}

  lemma CodeFirst(front: seq<byte>, tail: seq<byte>)
    requires START_CODE <= tail
    ensures FirstCode(front + tail, |front|) == |front| + 1
  {
    var buf := front + tail;
    assert forall m :: 0 <= m < 4 ==> buf[|front| + m] == tail[m] == START_CODE[m];
    FirstCodeIs(buf, |front|, |front| + 1);
  }

  lemma EndOfUnit(front: seq<byte>, nal: seq<byte>, tail: seq<byte>)
    requires nal != [] && Clean(nal) && (tail == [] || START_CODE <= tail)
    ensures UnitEnd(front + nal + tail, |front|) == |front + nal|
  {
    var buf := front + nal + tail;
    forall k | |front| <= k < |buf| && k <= |front + nal|
      ensures !CodeAt(buf, k)
    {
      NoCodeBefore(front, nal, tail, k);
    }
    if tail == [] {
      FirstCodeIs(buf, |front|, |buf|);
    } else {
      assert forall m :: 0 <= m < 4 ==> buf[|front + nal| + m] == tail[m] == START_CODE[m];
      FirstCodeIs(buf, |front|, |front + nal| + 1);
    }
  }

  lemma {:induction false} UnitsCoded(front: seq<byte>, nals: seq<seq<byte>>)
    requires Separable(nals)
    ensures UnitsFrom(front + Coded(nals), |front|) == nals
    decreases |nals|
  {
    var buf := front + Coded(nals);
    if nals == [] {
      FirstCodeIs(buf, |front|, |front|);
    } else {
      var ahead := front + START_CODE;
      var rest := Coded(nals[1..]);
      CodedHead(nals[1..]);
      CodeFirst(front, Coded(nals));
      assert buf == ahead + nals[0] + rest;
      EndOfUnit(ahead, nals[0], rest);
      UnitsCoded(ahead + nals[0], nals[1..]);
      assert buf[|ahead|..|ahead + nals[0]|] == nals[0];
    }
  }

  lemma {:induction false} UnitsClean(buf: seq<byte>, i: nat)
    requires i <= |buf|
    ensures Separable(UnitsFrom(buf, i))
    decreases |buf| - i
  {
    hide UnitsFrom, UnitEnd, FirstCode, Clean, CodeAt;
    var j := FirstCode(buf, i);
    if j == |buf| {
      UnitsEnd(buf, i);
    } else {
      UnitsStep(buf, i);
      UnitsClean(buf, UnitEnd(buf, j + 3));
      UnitClean(buf, j + 3);
    }
  }

  lemma UnitClean(buf: seq<byte>, start: nat)
    requires start <= |buf|
    ensures Clean(buf[start..UnitEnd(buf, start)])
  {
    hide FirstCode;
    var unit := buf[start..UnitEnd(buf, start)];
    forall k | 0 <= k < |unit|
      ensures !CodeAt(unit, k)
    {
      assert !CodeAt(buf, start + k);
    }
  }

  /**
    Units survive conversion to Annex B and back exactly when none is empty and none holds a start
    code; trailing zero bytes are kept.
   */
  lemma AnnexBRoundTrip(nals: seq<seq<byte>>)
    ensures UnitsFrom(Coded(nals), 0) == nals <==> Separable(nals)
  {
    UnitsClean(Coded(nals), 0);
    if Separable(nals) {
      UnitsCoded([], nals);
      assert [] + Coded(nals) == Coded(nals);
    }
  }

  // ----- Key frames -----

  predicate HasIDR(nals: seq<seq<byte>>) {
    exists i :: 0 <= i < |nals| && nals[i] != [] && NalType(nals[i][0]) == 5
  }

  lemma {:induction false} NothingBetween(buf: seq<byte>, i: nat, end: nat)
    requires i <= end <= |buf|
    requires forall k :: i <= k <= end ==> !CodeAt(buf, k)
    ensures TsDemux.KeyFrom(buf, i) == TsDemux.KeyFrom(buf, end)
    decreases end - i
  {
    if i < end {
      assert !CodeAt(buf, i) && !CodeAt(buf, i + 1);
      NothingBetween(buf, i + 1, end);
    }
  }

  lemma {:induction false} KeyCoded(front: seq<byte>, nals: seq<seq<byte>>)
    requires Separable(nals)
    ensures TsDemux.KeyFrom(front + Coded(nals), |front|) <==> HasIDR(nals)
    decreases |nals|
  {
    var buf := front + Coded(nals);
    if nals != [] {
      var ahead := front + START_CODE;
      var rest := Coded(nals[1..]);
      CodedHead(nals[1..]);
      assert buf == ahead + nals[0] + rest;
      assert forall m :: 0 <= m < 4 ==> buf[|front| + m] == START_CODE[m];
      assert buf[|ahead|] == nals[0][0];
      forall k | |ahead| < k <= |ahead + nals[0]|
        ensures !CodeAt(buf, k)
      {
        if k < |buf| {
          NoCodeBefore(ahead, nals[0], rest, k);
        }
      }
      NothingBetween(buf, |ahead| + 1, |ahead + nals[0]|);
      KeyCoded(ahead + nals[0], nals[1..]);
      assert HasIDR(nals) <==> NalType(nals[0][0]) == 5 || HasIDR(nals[1..]) by {
        if HasIDR(nals[1..]) {
          var i :| 0 <= i < |nals[1..]| && nals[1..][i] != [] && NalType(nals[1..][i][0]) == 5;
          assert nals[i + 1] == nals[1..][i];
        }
        if HasIDR(nals) {
          var i :| 0 <= i < |nals| && nals[i] != [] && NalType(nals[i][0]) == 5;
          assert i > 0 ==> nals[1..][i - 1] == nals[i];
        }
      }
    }
  }

  /**
    From an FLV tag's data through the segmenter's conversion to the bridge's splitter and the
    demuxer's key test: the same units, flagged as a key frame exactly when one is an IDR slice.
   */
  lemma StreamPreserved(nals: seq<seq<byte>>)
    requires Prefixable(nals) && Separable(nals)
    ensures
      var stream := Coded(Split(Avcc(nals)));
      && UnitsFrom(stream, 0) == nals
      && (TsDemux.KeyFrom(stream, 0) <==> HasIDR(nals))
  {
    SplitJoined(nals);
    AnnexBRoundTrip(nals);
    KeyCoded([], nals);
    assert [] + Coded(nals) == Coded(nals);
  }
}
