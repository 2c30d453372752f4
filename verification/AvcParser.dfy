/**
  The Annex B converter of libavc/avc.go: `Parser` with the parameter sets of its sequence header,
  and `GetAnnexbH264`.
 */
module AvcParser {
  import opened Bytes
  import opened NalUnits
  import opened AnnexB
  import opened Wrappers

  const AUD: seq<byte> := [0, 0, 0, 1, 0x09, 0xf0]

  datatype Error = DecDataNil | SpsDataError | PpsHeaderError | PpsDataError
                 | VideoDataInvalid | DataSizeNotMatch | NaluBodyLenError

  datatype Outcome = Ok | Failed(error: Error)

  // ----- What the conversion means -----

  function TypeAt(nals: seq<seq<byte>>, i: nat): byte
    requires i < |nals|
  {
    if nals[i] == [] then 0 else NalType(nals[i][0])
  }

  /** Slices, IDR slices and SEI, start-coded in order. */
  function Kept(nals: seq<seq<byte>>): seq<byte> {
    if nals == [] then []
    else Kept(nals[..|nals| - 1]) + if TypeAt(nals, |nals| - 1) in {1, 5, 6} then START_CODE + nals[|nals| - 1] else []
  }

  /** Parameter sets, start-coded in order. */
  function Sets(nals: seq<seq<byte>>): seq<byte> {
    if nals == [] then []
    else Sets(nals[..|nals| - 1]) + if TypeAt(nals, |nals| - 1) in {7, 8} then START_CODE + nals[|nals| - 1] else []
  }

  predicate HasSets(nals: seq<seq<byte>>) {
    exists i :: 0 <= i < |nals| && TypeAt(nals, i) in {7, 8}
  }

  function FirstIDR(nals: seq<seq<byte>>, i: nat): (k: nat)
    requires i <= |nals|
    ensures i <= k <= |nals|
    ensures k < |nals| ==> TypeAt(nals, k) == 5
    ensures forall m :: i <= m < k ==> TypeAt(nals, m) != 5
    decreases |nals| - i
  {
    if i == |nals| || TypeAt(nals, i) == 5 then i else FirstIDR(nals, i + 1)
  }

  /**
    The units in Annex B form: parameter sets once, in front of the first IDR slice, those of the
    units before it if there are any and else the ones configured.
   */
  function Converted(nals: seq<seq<byte>>, specificInfo: seq<byte>): seq<byte> {
    var k := FirstIDR(nals, 0);
    if k == |nals| then Kept(nals)
    else
      var before := nals[..k];
      Kept(before) + (if HasSets(before) then Sets(before) else specificInfo) + Kept(nals[k..])
  }

  /** Nothing at all is written for less than a prefix; an error later leaves the units before it written. */
  function Verdict(src: seq<byte>): Outcome {
    var left := |src| - |Avcc(Split(src))|;
    if |src| < 4 then Failed(VideoDataInvalid)
    else if left == 0 then Ok
    else if left < 4 then Failed(DataSizeNotMatch)
    else Failed(NaluBodyLenError)
  }

  /** The whole input is accepted exactly when it is a nonempty concatenation of nonempty prefixed units. */
  lemma AcceptedInputs(src: seq<byte>)
    ensures Verdict(src) == Ok <==> exists nals :: nals != [] && Prefixable(nals) && Avcc(nals) == src
  {
    AvccPrefix(src);
    if Verdict(src) == Ok {
      assert Avcc(Split(src)) == src;
    }
    forall nals | nals != [] && Prefixable(nals) && Avcc(nals) == src
      ensures Verdict(src) == Ok
    {
      SplitJoined(nals);
      assert |nals[0]| > 0;
    }
  }

  // ----- One more unit -----

  lemma KeptSnoc(nals: seq<seq<byte>>, nal: seq<byte>)
    requires nal != []
    ensures Kept(nals + [nal]) == Kept(nals) + if NalType(nal[0]) in {1, 5, 6} then START_CODE + nal else []
    ensures Sets(nals + [nal]) == Sets(nals) + if NalType(nal[0]) in {7, 8} then START_CODE + nal else []
    ensures HasSets(nals + [nal]) <==> HasSets(nals) || NalType(nal[0]) in {7, 8}
  {
    var more := nals + [nal];
    assert more[..|more| - 1] == nals;
    assert TypeAt(more, |nals|) == NalType(nal[0]);
    if HasSets(nals) {
      var i :| 0 <= i < |nals| && TypeAt(nals, i) in {7, 8};
      assert TypeAt(more, i) == TypeAt(nals, i);
    }
    if HasSets(more) && NalType(nal[0]) !in {7, 8} {
      var i :| 0 <= i < |more| && TypeAt(more, i) in {7, 8};
      assert TypeAt(nals, i) == TypeAt(more, i);
    }
  }

  lemma {:induction false} FirstIDRSnoc(nals: seq<seq<byte>>, nal: seq<byte>, i: nat)
    requires nal != [] && i <= |nals|
    ensures
      FirstIDR(nals + [nal], i)
      == if FirstIDR(nals, i) < |nals| || NalType(nal[0]) == 5 then FirstIDR(nals, i) else |nals| + 1
    decreases |nals| - i
  {
    var more := nals + [nal];
    if i < |nals| {
      assert TypeAt(more, i) == TypeAt(nals, i);
      FirstIDRSnoc(nals, nal, i + 1);
    } else {
      assert TypeAt(more, i) == NalType(nal[0]);
      assert FirstIDR(more, |more|) == |more|;
    }
  }

  function Addition(nals: seq<seq<byte>>, nal: seq<byte>, specificInfo: seq<byte>): seq<byte>
    requires nal != []
  {
    (if NalType(nal[0]) == 5 && FirstIDR(nals, 0) == |nals|
     then if HasSets(nals) then Sets(nals) else specificInfo
     else [])
    + if NalType(nal[0]) in {1, 5, 6} then START_CODE + nal else []
  }

  lemma ConvertedSnoc(nals: seq<seq<byte>>, nal: seq<byte>, specificInfo: seq<byte>)
    requires nal != []
    ensures Converted(nals + [nal], specificInfo) == Converted(nals, specificInfo) + Addition(nals, nal, specificInfo)
  {
    hide Kept, Sets, HasSets, FirstIDR, NalType;
    var k := FirstIDR(nals, 0);
    var more := nals + [nal];
    var unit := if NalType(nal[0]) in {1, 5, 6} then START_CODE + nal else [];
    FirstIDRSnoc(nals, nal, 0);
    if k < |nals| {
      assert more[..k] == nals[..k] && more[k..] == nals[k..] + [nal];
      KeptSnoc(nals[k..], nal);
      var sets := if HasSets(nals[..k]) then Sets(nals[..k]) else specificInfo;
      assert Addition(nals, nal, specificInfo) == unit;
      Regroup(Kept(nals[..k]) + sets, Kept(nals[k..]), unit);
    } else if NalType(nal[0]) == 5 {
      assert more[..k] == nals && more[k..] == [] + [nal];
      KeptSnoc([], nal);
      NothingDone([], []);
      var sets := if HasSets(nals) then Sets(nals) else specificInfo;
      assert [] + unit == unit;
      Regroup(Kept(nals), sets, unit);
    } else {
      KeptSnoc(nals, nal);
      assert [] + unit == unit;
    }
  }

  // ----- What a splitter finds in it -----

  /** The units whose type is among these. */
  function Only(nals: seq<seq<byte>>, types: set<byte>): seq<seq<byte>> {
    if nals == [] then []
    else Only(nals[..|nals| - 1], types) + if TypeAt(nals, |nals| - 1) in types then [nals[|nals| - 1]] else []
  }

  /** Behind a delimiter, the slices, IDR slices and SEI, and parameter sets where the first IDR slice is. */
  function Arranged(nals: seq<seq<byte>>, configured: seq<seq<byte>>): seq<seq<byte>> {
    var k := FirstIDR(nals, 0);
    var sets := Only(nals[..k], {7, 8});
    [[0x09, 0xf0]]
    + if k == |nals| then Only(nals, {1, 5, 6})
      else Only(nals[..k], {1, 5, 6}) + (if sets == [] then configured else sets) + Only(nals[k..], {1, 5, 6})
  }

  lemma {:induction false} CodedAppend(a: seq<seq<byte>>, b: seq<seq<byte>>)
    ensures Coded(a + b) == Coded(a) + Coded(b)
  {
    if a == [] {
      assert a + b == b;
    } else {
      assert (a + b)[1..] == a[1..] + b;
      CodedAppend(a[1..], b);
      Regroup(START_CODE + a[0], Coded(a[1..]), Coded(b));
    }
  }

  lemma CodedOne(nal: seq<byte>)
    ensures Coded([nal]) == START_CODE + nal
  {
    assert Coded([nal][1..]) == [];
  }

  lemma {:induction false} OnlyCoded(nals: seq<seq<byte>>)
    ensures Kept(nals) == Coded(Only(nals, {1, 5, 6})) && Sets(nals) == Coded(Only(nals, {7, 8}))
    decreases |nals|
  {
    hide Coded, TypeAt;
    CodedNone();
    if nals != [] {
      var front, nal := nals[..|nals| - 1], nals[|nals| - 1];
      OnlyCoded(front);
      CodedOne(nal);
      CodedAppend(Only(front, {1, 5, 6}), [nal]);
      CodedAppend(Only(front, {7, 8}), [nal]);
      CodedAppend(Only(front, {1, 5, 6}), []);
      CodedAppend(Only(front, {7, 8}), []);
    }
  }

  lemma CodedNone()
    ensures Coded([]) == []
  {}

  lemma {:induction false} OnlySeparable(nals: seq<seq<byte>>, types: set<byte>)
    requires Separable(nals)
    ensures Separable(Only(nals, types))
    decreases |nals|
  {
    hide TypeAt, Clean;
    if nals != [] {
      assert Separable(nals[..|nals| - 1]);
      OnlySeparable(nals[..|nals| - 1], types);
    }
  }

  lemma {:induction false} OnlyNone(nals: seq<seq<byte>>)
    ensures HasSets(nals) <==> Only(nals, {7, 8}) != []
    decreases |nals|
  {
    hide TypeAt;
    if nals != [] {
      var front, last := nals[..|nals| - 1], |nals| - 1;
      OnlyNone(front);
      assert HasSets(nals) <==> HasSets(front) || TypeAt(nals, last) in {7, 8} by {
        assert forall i :: 0 <= i < last ==> TypeAt(front, i) == TypeAt(nals, i) by {
          forall i | 0 <= i < last
            ensures TypeAt(front, i) == TypeAt(nals, i)
          {
            SameType(nals, i);
          }
        }
      }
    }
  }

  lemma SameType(nals: seq<seq<byte>>, i: nat)
    requires i < |nals| - 1
    ensures TypeAt(nals[..|nals| - 1], i) == TypeAt(nals, i)
  {}

  lemma ArrangedCoded(nals: seq<seq<byte>>, configured: seq<seq<byte>>)
    ensures AUD + Converted(nals, Coded(configured)) == Coded(Arranged(nals, configured))
  {
    hide Coded, Kept, Sets, Only, TypeAt, FirstIDR, Clean;
    var k := FirstIDR(nals, 0);
    var before, rest := nals[..k], nals[k..];
    CodedOne([0x09, 0xf0]);
    OnlyCoded(nals);
    OnlyCoded(before);
    OnlyCoded(rest);
    OnlyNone(before);
    var slices, sets := Only(before, {1, 5, 6}), if HasSets(before) then Only(before, {7, 8}) else configured;
    CodedAppend(slices, sets);
    CodedAppend(slices + sets, Only(rest, {1, 5, 6}));
    CodedAppend([[0x09, 0xf0]], if k == |nals| then Only(nals, {1, 5, 6}) else slices + sets + Only(rest, {1, 5, 6}));
  }

  lemma ArrangedSeparable(nals: seq<seq<byte>>, configured: seq<seq<byte>>)
    requires Separable(nals) && Separable(configured)
    ensures Separable(Arranged(nals, configured))
  {
    hide Only, TypeAt, FirstIDR, Clean;
    var k := FirstIDR(nals, 0);
    OnlySeparable(nals, {1, 5, 6});
    OnlySeparable(nals[..k], {1, 5, 6});
    OnlySeparable(nals[..k], {7, 8});
    OnlySeparable(nals[k..], {1, 5, 6});
    assert Clean([0x09, 0xf0]) by { ShortClean([0x09, 0xf0]); }
  }

  lemma ShortClean(nal: seq<byte>)
    requires |nal| < 3
    ensures Clean(nal)
  {}

  /** Splitting what is written for an access unit gives its units as arranged. */
  lemma ConvertedRead(nals: seq<seq<byte>>, configured: seq<seq<byte>>)
    requires Separable(nals) && Separable(configured)
    ensures UnitsFrom(AUD + Converted(nals, Coded(configured)), 0) == Arranged(nals, configured)
  {
    hide *;
    ArrangedCoded(nals, configured);
    ArrangedSeparable(nals, configured);
    AnnexBRoundTrip(Arranged(nals, configured));
  }

  /** `Parser`; the Pps buffer keeps the parameter sets of the buffer converted last. */
  class Parser {
    var specificInfo: seq<byte>
    var pps: seq<byte>

    constructor ()
      ensures specificInfo == [] && pps == []
    {
      specificInfo, pps := [], [];
    }

    /**
      Reads the first sequence parameter set of a decoder configuration record, then takes
      everything after the first picture parameter set's length for that set.
     */
    method ParseSpecificInfo(src: seq<byte>) returns (r: Outcome)
      modifies this`specificInfo
      ensures r.Failed? ==> specificInfo == old(specificInfo)
      ensures r == Ok <==>
        && |src| >= 9
        && 0 < Get16(src[6..]) <= |src| - 8
        && |src| - 8 - Get16(src[6..]) >= 4
        && 0 < Get16(src[9 + Get16(src[6..])..]) <= |src| - 8 - Get16(src[6..]) - 3
      ensures r == Ok ==>
        var spsLen := Get16(src[6..]);
        specificInfo == old(specificInfo) + Coded([src[8..8 + spsLen], src[11 + spsLen..]])
    {
      if |src| < 9 {
        return Failed(DecDataNil);
      }
      var spsLen := Get16(src[6..]);
      if |src[8..]| < spsLen || spsLen <= 0 {
        return Failed(SpsDataError);
      }
      var sps := START_CODE;
      sps := sps + src[8..8 + spsLen];
      var tmpBuf := src[8 + spsLen..];
      if |tmpBuf| < 4 {
        return Failed(PpsHeaderError);
      }
      var ppsLen := Get16(tmpBuf[1..]);
      assert tmpBuf[1..] == src[9 + spsLen..] && tmpBuf[3..] == src[11 + spsLen..];
      if |tmpBuf[3..]| < ppsLen || ppsLen <= 0 {
        return Failed(PpsDataError);
      }
      var pps := START_CODE;
      pps := pps + tmpBuf[3..];
      ghost var before := specificInfo;
      specificInfo := specificInfo + sps;
      specificInfo := specificInfo + pps;
      CodedTwo(src[8..8 + spsLen], src[11 + spsLen..]);
      assert specificInfo == before + (sps + pps);
      return Ok;
    }

    method GetAnnexbH264(src: seq<byte>) returns (r: Outcome, out: seq<byte>)
      modifies this`pps
      ensures r == Verdict(src)
      ensures |src| < 4 ==> out == [] && pps == old(pps)
      ensures |src| >= 4 ==> out == AUD + Converted(Split(src), specificInfo) && pps == Sets(Split(src))
    {
      hide Converted, Split, Kept, Sets, HasSets, FirstIDR, Get32, Avcc, NalType, Converting, Verdict;
      out := [];
      var dataSize := |src|;
      if dataSize < 4 {
        assert Verdict(src) == Failed(VideoDataInvalid) by { TooShort(src); }
        return Failed(VideoDataInvalid), out;
      }
      pps := [];
      out := out + AUD;
      var index := 0;
      var hasSpsPps := false;
      var hasWriteSpsPps := false;
      ghost var done: seq<seq<byte>> := [];
      NothingConverted(src, specificInfo);
      while dataSize > 0
        invariant 0 <= index <= |src| && dataSize == |src| - index
        invariant Converting(src, index, done, specificInfo, pps, hasSpsPps, hasWriteSpsPps, out)
      {
        ConvertingMeans(src, index, done, specificInfo, pps, hasSpsPps, hasWriteSpsPps, out);
        if dataSize < 4 {
          return Failed(DataSizeNotMatch), out;
        }
        var nalLen := Get32(src[index..]);
        index := index + 4;
        dataSize := dataSize - 4;
        if dataSize >= nalLen && nalLen > 0 {
          ghost var nal := src[index..index + nalLen];
          ConvertingStep(src, index - 4, done, specificInfo, pps, hasSpsPps, hasWriteSpsPps, out);
          ghost var before := out;
          var nalType := NalType(src[index]);
          if nalType == 5 {
            if !hasWriteSpsPps {
              hasWriteSpsPps := true;
              if !hasSpsPps {
                out := out + specificInfo;
              } else {
                out := out + pps;
              }
            }
          }
          if nalType == 5 || nalType == 1 || nalType == 6 {
            out := out + START_CODE;
            out := out + src[index..index + nalLen];
          } else if nalType == 7 || nalType == 8 {
            hasSpsPps := true;
            pps := pps + START_CODE;
            pps := pps + src[index..index + nalLen];
          }
          done := done + [nal];
          index := index + nalLen;
          dataSize := dataSize - nalLen;
        } else {
          return Failed(NaluBodyLenError), out;
        }
      }
      ConvertingMeans(src, index, done, specificInfo, pps, hasSpsPps, hasWriteSpsPps, out);
      return Ok, out;
    }
  }

  /** The units done are converted, those behind index are still to do. */
  ghost predicate Converting(src: seq<byte>, index: nat, done: seq<seq<byte>>, specificInfo: seq<byte>,
                             pps: seq<byte>, hasSpsPps: bool, hasWriteSpsPps: bool, out: seq<byte>) {
    && Walked(src, index, done)
    && pps == Sets(done)
    && hasSpsPps == HasSets(done)
    && hasWriteSpsPps == (FirstIDR(done, 0) < |done|)
    && out == AUD + Converted(done, specificInfo)
  }

  predicate Walked(src: seq<byte>, index: nat, done: seq<seq<byte>>) {
    && index <= |src|
    && Split(src) == done + Split(src[index..])
    && |Avcc(Split(src))| == index + |Avcc(Split(src[index..]))|
  }

  lemma WalkedStep(src: seq<byte>, index: nat, done: seq<seq<byte>>)
    requires Walked(src, index, done)
    requires index + 4 <= |src| && 0 < Get32(src[index..]) && index + 4 + Get32(src[index..]) <= |src|
    ensures
      var next := index + 4 + Get32(src[index..]);
      Walked(src, next, done + [src[index + 4..next]])
  {
    var next := index + 4 + Get32(src[index..]);
    var nal, rest := src[index + 4..next], Split(src[next..]);
    assert Split(src[index..]) == [nal] + rest by {
      SplitStep(src, index);
    }
    assert |Avcc([nal] + rest)| == 4 + |nal| + |Avcc(rest)| by {
      AvccCons(nal, rest);
    }
    hide Split, Avcc, Get32;
    Regroup(done, [nal], rest);
    assert next <= |src|;
  }

  lemma NothingConverted(src: seq<byte>, specificInfo: seq<byte>)
    ensures Converting(src, 0, [], specificInfo, [], false, false, [] + AUD)
  {
    NothingDone(src, specificInfo);
    assert [] + AUD == AUD + [];
  }

  lemma ConvertingMeans(src: seq<byte>, index: nat, done: seq<seq<byte>>, specificInfo: seq<byte>,
                        pps: seq<byte>, hasSpsPps: bool, hasWriteSpsPps: bool, out: seq<byte>)
    requires |src| >= 4
    requires Converting(src, index, done, specificInfo, pps, hasSpsPps, hasWriteSpsPps, out)
    ensures
      var left := src[index..];
      |left| < 4 || Get32(left) == 0 || 4 + Get32(left) > |left| ==>
        && out == AUD + Converted(Split(src), specificInfo) && pps == Sets(Split(src))
        && Verdict(src) == if |left| == 0 then Ok else if |left| < 4 then Failed(DataSizeNotMatch) else Failed(NaluBodyLenError)
  {
    hide Converted, Split, Kept, Sets, HasSets, FirstIDR, Get32, Avcc;
    Leftover(src[index..]);
    assert done + [] == done;
  }

  lemma TooShort(src: seq<byte>)
    requires |src| < 4
    ensures Verdict(src) == Failed(VideoDataInvalid)
  {}

  /** The parameter sets collected once a unit is behind. */
  function NextSets(pps: seq<byte>, nal: seq<byte>): seq<byte>
    requires nal != []
  {
    if NalType(nal[0]) == 7 || NalType(nal[0]) == 8 then pps + START_CODE + nal else pps
  }

  /** What is written once a unit is behind, with or without parameter sets in front of it. */
  function NextOut(out: seq<byte>, nal: seq<byte>, specificInfo: seq<byte>, pps: seq<byte>, hasSpsPps: bool, hasWriteSpsPps: bool): seq<byte>
    requires nal != []
  {
    var kind := NalType(nal[0]);
    var sets := if kind == 5 && !hasWriteSpsPps then out + (if hasSpsPps then pps else specificInfo) else out;
    if kind == 5 || kind == 1 || kind == 6 then sets + START_CODE + nal else sets
  }

  lemma ConvertingStep(src: seq<byte>, index: nat, done: seq<seq<byte>>, specificInfo: seq<byte>,
                       pps: seq<byte>, hasSpsPps: bool, hasWriteSpsPps: bool, out: seq<byte>)
    requires Converting(src, index, done, specificInfo, pps, hasSpsPps, hasWriteSpsPps, out)
    requires index + 4 <= |src| && 0 < Get32(src[index..]) && index + 4 + Get32(src[index..]) <= |src|
    ensures
      var next := index + 4 + Get32(src[index..]);
      var nal := src[index + 4..next];
      var kind := NalType(nal[0]);
      Converting(src, next, done + [nal], specificInfo,
                 NextSets(pps, nal), hasSpsPps || kind == 7 || kind == 8, hasWriteSpsPps || kind == 5,
                 NextOut(out, nal, specificInfo, pps, hasSpsPps, hasWriteSpsPps))
  {
    hide Walked, Converted, Split, Kept, Sets, HasSets, FirstIDR, Get32, Avcc, NalType, Addition, NextSets, NextOut;
    var next := index + 4 + Get32(src[index..]);
    var nal := src[index + 4..next];
    WalkedStep(src, index, done);
    SetsNext(done, nal);
    FirstIDRSnoc(done, nal, 0);
    ConvertedNext(out, done, nal, specificInfo);
    assert |done + [nal]| == |done| + 1;
  }

  lemma SetsNext(done: seq<seq<byte>>, nal: seq<byte>)
    requires nal != []
    ensures
      var kind := NalType(nal[0]);
      && Sets(done + [nal]) == NextSets(Sets(done), nal)
      && (HasSets(done + [nal]) <==> HasSets(done) || kind == 7 || kind == 8)
  {
    KeptSnoc(done, nal);
    hide Kept, Sets, HasSets, NalType;
    Regroup(Sets(done), START_CODE, nal);
    assert Sets(done) + [] == Sets(done);
  }

  lemma ConvertedNext(out: seq<byte>, done: seq<seq<byte>>, nal: seq<byte>, specificInfo: seq<byte>)
    requires nal != [] && out == AUD + Converted(done, specificInfo)
    ensures
      NextOut(out, nal, specificInfo, Sets(done), HasSets(done), FirstIDR(done, 0) < |done|)
      == AUD + Converted(done + [nal], specificInfo)
  {
    ConvertedSnoc(done, nal, specificInfo);
    Added(out, done, nal, specificInfo);
    hide Converted, Sets, HasSets, FirstIDR, NalType, Addition;
    Regroup(AUD, Converted(done, specificInfo), Addition(done, nal, specificInfo));
  }

  lemma Added(out: seq<byte>, done: seq<seq<byte>>, nal: seq<byte>, specificInfo: seq<byte>)
    requires nal != []
    ensures
      NextOut(out, nal, specificInfo, Sets(done), HasSets(done), FirstIDR(done, 0) < |done|)
      == out + Addition(done, nal, specificInfo)
  {
    hide Sets, HasSets, FirstIDR, NalType;
    var kind := NalType(nal[0]);
    var sets := if kind == 5 && FirstIDR(done, 0) == |done| then if HasSets(done) then Sets(done) else specificInfo else [];
    var unit := if kind == 5 || kind == 1 || kind == 6 then START_CODE + nal else [];
    assert Addition(done, nal, specificInfo) == sets + unit;
    Regroup(out, sets, unit);
    Regroup(out + sets, START_CODE, nal);
    assert out + [] == out && out + sets + [] == out + sets;
  }

  lemma CodedTwo(a: seq<byte>, b: seq<byte>)
    ensures Coded([a, b]) == START_CODE + a + (START_CODE + b)
  {
    assert [a, b][1..] == [b] && [b][1..] == [];
    assert Coded([b]) == START_CODE + b;
  }

  lemma NothingDone(src: seq<byte>, specificInfo: seq<byte>)
    ensures src[0..] == src && [] + Split(src) == Split(src)
    ensures Kept([]) == [] && Sets([]) == [] && !HasSets([]) && FirstIDR([], 0) == 0 && Converted([], specificInfo) == []
  {}

  lemma AvccCons(nal: seq<byte>, rest: seq<seq<byte>>)
    ensures |Avcc([nal] + rest)| == 4 + |nal| + |Avcc(rest)|
  {
    assert ([nal] + rest)[1..] == rest;
  }

  /** A walk that cannot take one more unit has nothing left to split. */
  lemma Leftover(buf: seq<byte>)
    ensures |buf| < 4 || Get32(buf) == 0 || 4 + Get32(buf) > |buf| ==> Split(buf) == [] && Avcc(Split(buf)) == []
  {}
}
