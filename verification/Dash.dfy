/**
  The DASH segmenter of libdash/dash.go: batching in `Start`, `flushCurrent`, the window of
  segments and the fragment files.
 */
module Dash {
  import opened Bytes
  import opened Mp4Fragment
  import opened Wrappers

  /** A sample with the FLV time, in milliseconds, that it came with. */
  datatype TimedSample = TimedSample(dts: u32, cts: i32, data: seq<byte>, key: bool)

  datatype SegmentInfo = SegmentInfo(seqNo: nat, startTime: u64, duration: u64)

  datatype Config = Config(targetMs: u32, windowSize: nat)

  /** What `Start` reads: a sequence header that yields an init segment or not, a video sample, something else. */
  datatype Tag = Other | SequenceHeader(usable: bool) | Video(sample: TimedSample)

  /** A tag, and whether writing a fragment file succeeds should it come to that. */
  datatype Input = Input(tag: Tag, writes: bool)

  datatype State = State(
    ready: bool, current: seq<TimedSample>, segments: seq<SegmentInfo>, nextSeq: nat, files: map<nat, seq<byte>>)

  const START := State(false, [], [], 0, map[])

  // ----- One fragment -----

  /** The uint64 interval given to sample i: up to the next one, for the last the one before. */
  function Interval(c: seq<TimedSample>, i: nat): u64
    requires i < |c|
  {
    if i + 1 < |c| then U64(c[i + 1].dts - c[i].dts)
    else if i > 0 then U64(c[i].dts - c[i - 1].dts)
    else 33
  }

  function SampleOf(c: seq<TimedSample>, i: nat): Sample
    requires i < |c|
  {
    Sample(U32(Interval(c, i)), U32(|c[i].data|), c[i].key, c[i].cts, c[i].data)
  }

  function Samples(c: seq<TimedSample>): (r: seq<Sample>)
    ensures |r| == |c|
  {
    seq(|c|, i requires 0 <= i < |c| => SampleOf(c, i))
  }

  function ParamsOf(c: seq<TimedSample>, seqNo: nat): Params
    requires c != []
  {
    Params(1, U32(seqNo + 1), c[0].dts, Samples(c))
  }

  function InfoOf(c: seq<TimedSample>, seqNo: nat): SegmentInfo
    requires c != []
  {
    var last := |c| - 1;
    SegmentInfo(seqNo, c[0].dts, U64(U64(c[last].dts + U32(Interval(c, last))) - c[0].dts))
  }

  // ----- The state machine -----

  function Reaped(segments: seq<SegmentInfo>, files: map<nat, seq<byte>>, windowSize: nat): (seq<SegmentInfo>, map<nat, seq<byte>>)
    decreases |segments|
  {
    if |segments| <= windowSize then (segments, files)
    else Reaped(segments[1..], files - {segments[0].seqNo}, windowSize)
  }

  /** A batch of one is dropped; one that cannot be written stays. */
  function Flushed(cfg: Config, s: State, writes: bool): State {
    if |s.current| < 2 then s.(current := [])
    else if !writes then s
    else
      var fragment := Fragment(ParamsOf(s.current, s.nextSeq));
      var kept := Reaped(s.segments + [InfoOf(s.current, s.nextSeq)], s.files[s.nextSeq := fragment], cfg.windowSize);
      s.(current := [], segments := kept.0, nextSeq := s.nextSeq + 1, files := kept.1)
  }

  /** A key frame far enough from the batch's first sample; uint64 arithmetic, so also one before it. */
  predicate Rotates(cfg: Config, s: State, x: TimedSample) {
    x.key && s.current != [] && U64(U64(x.dts - s.current[0].dts) * 1000) >= cfg.targetMs * 1000
  }

  predicate Admits(cfg: Config, s: State, x: TimedSample) {
    s.ready && (x.key || s.current != [])
  }

  function Step(cfg: Config, s: State, input: Input): State {
    match input.tag
    case Other => s
    case SequenceHeader(usable) => s.(ready := s.ready || usable)
    case Video(x) =>
      var t := if Rotates(cfg, s, x) then Flushed(cfg, s, input.writes) else s;
      if Admits(cfg, s, x) then t.(current := t.current + [x]) else t
  }

  function Run(cfg: Config, s: State, inputs: seq<Input>): State
    decreases |inputs|
  {
    if inputs == [] then s else Run(cfg, Step(cfg, s, inputs[0]), inputs[1..])
  }

  class DASH {
    const cfg: Config
    var initBytes: bool
    var currentSamples: seq<TimedSample>
    var segments: seq<SegmentInfo>
    var nextSeq: nat
    var files: map<nat, seq<byte>>

    constructor (cfg: Config)
      ensures this.cfg == cfg && Current() == START
    {
      this.cfg := cfg;
      initBytes, currentSamples, segments, nextSeq, files := false, [], [], 0, map[];
    }

    function Current(): State
      reads this
    {
      State(initBytes, currentSamples, segments, nextSeq, files)
    }

    method FlushCurrent(writes: bool) returns (ok: bool)
      modifies this
      ensures Current() == Flushed(cfg, old(Current()), writes)
      ensures ok <==> |old(currentSamples)| < 2 || writes
    {
      hide Fragment, U64, U32;
      if |currentSamples| < 2 {
        currentSamples := [];
        return true;
      }
      var seqNo := nextSeq;
      var startTime := currentSamples[0].dts;
      var samples: seq<Sample> := [];
      var i := 0;
      while i < |currentSamples|
        invariant 0 <= i <= |currentSamples| && |samples| == i
        invariant forall k :: 0 <= k < i ==> samples[k] == SampleOf(currentSamples, k)
        invariant Current() == old(Current())
      {
        var s := currentSamples[i];
        var dur: u64 := 33;
        if i + 1 < |currentSamples| {
          dur := U64(currentSamples[i + 1].dts - s.dts);
        } else if i > 0 {
          dur := U64(s.dts - currentSamples[i - 1].dts);
        }
        samples := samples + [Sample(U32(dur), U32(|s.data|), s.key, s.cts, s.data)];
        i := i + 1;
      }
      assert samples == Samples(currentSamples);
      var fragment := BuildMediaSegment(Params(1, U32(seqNo + 1), startTime, samples));
      if !writes {
        return false;
      }
      files := files[seqNo := fragment];
      var endTime := U64(currentSamples[|currentSamples| - 1].dts + samples[|samples| - 1].duration);
      segments := segments + [SegmentInfo(seqNo, startTime, U64(endTime - startTime))];
      nextSeq := nextSeq + 1;
      ghost var kept := Reaped(segments, files, cfg.windowSize);
      while |segments| > cfg.windowSize
        invariant Reaped(segments, files, cfg.windowSize) == kept
        invariant nextSeq == old(nextSeq) + 1 && initBytes == old(initBytes) && currentSamples == old(currentSamples)
        decreases |segments|
      {
        var oldest := segments[0];
        segments := segments[1..];
        files := files - {oldest.seqNo};
      }
      currentSamples := [];
      return true;
    }

    /** One turn of the loop of `Start`. */
    method Feed(input: Input)
      modifies this
      ensures Current() == Step(cfg, old(Current()), input)
    {
      match input.tag
      case Other =>
      case SequenceHeader(usable) =>
        if usable {
          initBytes := true;
        }
      case Video(x) =>
        if x.key {
          if |currentSamples| > 0 {
            var curDur: int := U64(x.dts - currentSamples[0].dts);
            if U64(curDur * 1000) >= cfg.targetMs * 1000 {
              var _ := FlushCurrent(input.writes);
            }
          }
        } else if |currentSamples| == 0 {
          return;
        }
        if !initBytes {
          return;
        }
        currentSamples := currentSamples + [x];
    }

    /** `Start` over all the tags a publisher sends, with the flush it defers. */
    method Start(inputs: seq<Input>, lastWrites: bool)
      modifies this
      ensures Current() == Flushed(cfg, Run(cfg, old(Current()), inputs), lastWrites)
    {
      var i := 0;
      assert inputs[0..] == inputs;
      while i < |inputs|
        invariant 0 <= i <= |inputs|
        invariant Run(cfg, Current(), inputs[i..]) == Run(cfg, old(Current()), inputs)
      {
        assert inputs[i..][1..] == inputs[i + 1..];
        Feed(inputs[i]);
        i := i + 1;
      }
      var _ := FlushCurrent(lastWrites);
    }
  }

  lemma Aged(dts: u32, first: u32)
    ensures U64(U64(dts - first) * 1000) == 1000 * (dts - first) + if dts < first then 0x1_0000_0000_0000_0000 else 0
  {
    var age := dts - first;
    if dts < first {
      SameU64(U64(age) * 1000, 1000 * age + 0x1_0000_0000_0000_0000, 999);
    }
  }

  lemma SameU64(x: int, y: int, turns: int)
    requires x == y + 0x1_0000_0000_0000_0000 * turns
    ensures U64(x) == U64(y)
  {}

  // ----- What a run does with its samples -----

  /** The batches a step takes out of the current one. */
  function Closed(cfg: Config, s: State, input: Input): seq<seq<TimedSample>> {
    if input.tag.Video? && Rotates(cfg, s, input.tag.sample) && (|s.current| < 2 || input.writes) then [s.current] else []
  }

  function Accepted(cfg: Config, s: State, input: Input): seq<TimedSample> {
    if input.tag.Video? && Admits(cfg, s, input.tag.sample) then [input.tag.sample] else []
  }

  /**
    A batch ends at a key sample that is late enough, or earlier than the batch's first, since its age
    wraps then; and it stays if its file cannot be written, unless it is too short for one.
   */
  lemma BatchEnds(cfg: Config, s: State, x: TimedSample, writes: bool)
    ensures
      Closed(cfg, s, Input(Video(x), writes))
      == if && x.key && s.current != [] && (x.dts < s.current[0].dts || x.dts - s.current[0].dts >= cfg.targetMs)
            && (|s.current| < 2 || writes)
         then [s.current] else []
  {
    if s.current != [] {
      Aged(x.dts, s.current[0].dts);
    }
  }

  function AllClosed(cfg: Config, s: State, inputs: seq<Input>): seq<seq<TimedSample>>
    decreases |inputs|
  {
    if inputs == [] then [] else Closed(cfg, s, inputs[0]) + AllClosed(cfg, Step(cfg, s, inputs[0]), inputs[1..])
  }

  function AllAccepted(cfg: Config, s: State, inputs: seq<Input>): seq<TimedSample>
    decreases |inputs|
  {
    if inputs == [] then [] else Accepted(cfg, s, inputs[0]) + AllAccepted(cfg, Step(cfg, s, inputs[0]), inputs[1..])
  }

  function Videos(inputs: seq<Input>): seq<TimedSample> {
    if inputs == [] then []
    else (if inputs[0].tag.Video? then [inputs[0].tag.sample] else []) + Videos(inputs[1..])
  }

  /** The video samples from the first key sample on that comes behind a usable sequence header. */
  function Playable(inputs: seq<Input>, headed: bool): seq<TimedSample> {
    if inputs == [] then []
    else
      match inputs[0].tag
      case SequenceHeader(usable) => Playable(inputs[1..], headed || usable)
      case Video(x) => if headed && x.key then Videos(inputs) else Playable(inputs[1..], headed)
      case Other => Playable(inputs[1..], headed)
  }

  /** A batch is open only behind a sequence header. */
  lemma StepOpen(cfg: Config, s: State, input: Input)
    requires s.current != [] ==> s.ready
    ensures
      var t := Step(cfg, s, input);
      && (t.current != [] ==> t.ready) && (s.current != [] ==> t.current != [])
      && t.ready == (s.ready || (input.tag.SequenceHeader? && input.tag.usable))
      && (s.current == [] ==> (t.current != [] <==> s.ready && input.tag.Video? && input.tag.sample.key))
  {
    hide Fragment, Reaped, InfoOf, ParamsOf;
  }

  /** Which samples are accepted: none is left out once the first one is in. */
  lemma {:induction false} AcceptedAre(cfg: Config, s: State, inputs: seq<Input>)
    requires s.current != [] ==> s.ready
    ensures AllAccepted(cfg, s, inputs) == if s.current != [] then Videos(inputs) else Playable(inputs, s.ready)
    decreases |inputs|
  {
    hide Step;
    if inputs != [] {
      StepOpen(cfg, s, inputs[0]);
      AcceptedAre(cfg, Step(cfg, s, inputs[0]), inputs[1..]);
    }
  }

  function Flat(batches: seq<seq<TimedSample>>): seq<TimedSample> {
    if batches == [] then [] else batches[0] + Flat(batches[1..])
  }

  /** The batches long enough to become fragments. */
  function Long(batches: seq<seq<TimedSample>>): seq<seq<TimedSample>> {
    if batches == [] then [] else (if |batches[0]| >= 2 then [batches[0]] else []) + Long(batches[1..])
  }

  /** No sample is lost, doubled or moved: those accepted are the closed batches and then the open one. */
  lemma {:induction false} Conserved(cfg: Config, s: State, inputs: seq<Input>)
    ensures
      s.current + AllAccepted(cfg, s, inputs)
      == Flat(AllClosed(cfg, s, inputs)) + Run(cfg, s, inputs).current
    decreases |inputs|
  {
    hide Step, Closed, Accepted;
    if inputs != [] {
      var t := Step(cfg, s, inputs[0]);
      Conserved(cfg, t, inputs[1..]);
      OneConserved(cfg, s, inputs[0]);
      FlatAppend(Closed(cfg, s, inputs[0]), AllClosed(cfg, t, inputs[1..]));
      Chain(s.current, Accepted(cfg, s, inputs[0]), AllAccepted(cfg, t, inputs[1..]), t.current,
            Flat(Closed(cfg, s, inputs[0])), Flat(AllClosed(cfg, t, inputs[1..])), Run(cfg, t, inputs[1..]).current);
    }
  }

  lemma Chain<T>(s: seq<T>, accepted: seq<T>, later: seq<T>, t: seq<T>, closed: seq<T>, rest: seq<T>, end: seq<T>)
    requires s + accepted == closed + t && t + later == rest + end
    ensures s + (accepted + later) == closed + rest + end
  {
    assert s + (accepted + later) == s + accepted + later;
    assert closed + t + later == closed + (t + later);
    assert closed + (rest + end) == closed + rest + end;
  }

  lemma OneConserved(cfg: Config, s: State, input: Input)
    ensures s.current + Accepted(cfg, s, input) == Flat(Closed(cfg, s, input)) + Step(cfg, s, input).current
  {
    assert Flat([s.current]) == s.current + Flat([]);
    hide Reaped, Rotates;
  }

  lemma {:induction false} FlatAppend(a: seq<seq<TimedSample>>, b: seq<seq<TimedSample>>)
    ensures Flat(a + b) == Flat(a) + Flat(b)
  {
    if a == [] {
      assert a + b == b;
    } else {
      assert (a + b)[1..] == a[1..] + b;
      FlatAppend(a[1..], b);
    }
  }

  // ----- The window -----

  predicate Opens(batch: seq<TimedSample>) { batch != [] && batch[0].key }

  function Oldest(cfg: Config, count: nat): nat {
    if count > cfg.windowSize then count - cfg.windowSize else 0
  }

  predicate Fragments(w: seq<seq<TimedSample>>) {
    forall k :: 0 <= k < |w| ==> Opens(w[k]) && |w[k]| >= 2
  }

  function Infos(w: seq<seq<TimedSample>>, from: nat): seq<SegmentInfo>
    requires Fragments(w) && from <= |w|
  {
    seq(|w| - from, i requires 0 <= i < |w| - from => InfoOf(w[from + i], from + i))
  }

  /** The files are the fragments from one number on, each under its own. */
  ghost predicate Stored(files: map<nat, seq<byte>>, w: seq<seq<TimedSample>>, from: nat)
    requires Fragments(w)
  {
    && (forall k :: k in files <==> from <= k < |w|)
    && (forall k :: from <= k < |w| ==> files[k] == Fragment(ParamsOf(w[k], k)))
  }

  /**
    The state that the fragments written so far determine: numbered from 0, the last windowSize of
    them listed and, alone, on disk; the open batch starts with a key frame.
   */
  ghost predicate Represents(cfg: Config, s: State, w: seq<seq<TimedSample>>) {
    var from := Oldest(cfg, |w|);
    && Fragments(w)
    && s.nextSeq == |w|
    && s.segments == Infos(w, from)
    && Stored(s.files, w, from)
    && (s.current != [] ==> s.ready && Opens(s.current))
  }

  lemma InfosGrow(cfg: Config, w: seq<seq<TimedSample>>, batch: seq<TimedSample>)
    requires Fragments(w) && Opens(batch) && |batch| >= 2
    ensures
      var from, to := Oldest(cfg, |w|), Oldest(cfg, |w| + 1);
      var all := Infos(w, from) + [InfoOf(batch, |w|)];
      && from <= to <= from + 1 && to <= |w| + 1
      && |all| == |w| + 1 - from
      && (all != [] ==> all[0].seqNo == from)
      && Infos(w + [batch], to) == all[to - from..]
  {
    hide InfoOf;
    var from, to := Oldest(cfg, |w|), Oldest(cfg, |w| + 1);
    var all := Infos(w, from) + [InfoOf(batch, |w|)];
    var next := Infos(w + [batch], to);
    forall i | 0 <= i < |next|
      ensures next[i] == all[to - from..][i]
    {}
    assert all[0].seqNo == from by { SeqNoOf(w + [batch], from); }
  }

  lemma SeqNoOf(w: seq<seq<TimedSample>>, k: nat)
    requires k < |w| && w[k] != []
    ensures InfoOf(w[k], k).seqNo == k
  {}

  lemma StoredGrows(files: map<nat, seq<byte>>, w: seq<seq<TimedSample>>, batch: seq<TimedSample>, from: nat, to: nat)
    requires Fragments(w) && Opens(batch) && |batch| >= 2
    requires from <= |w| && Stored(files, w, from) && from <= to <= from + 1
    ensures
      var more := files[|w| := Fragment(ParamsOf(batch, |w|))];
      Stored(if to == from then more else more - {from}, w + [batch], to)
  {
    hide Fragment, ParamsOf;
  }

  lemma ReapedOnce(segments: seq<SegmentInfo>, files: map<nat, seq<byte>>, windowSize: nat)
    requires |segments| <= windowSize + 1
    ensures
      Reaped(segments, files, windowSize)
      == if |segments| <= windowSize then (segments, files) else (segments[1..], files - {segments[0].seqNo})
  {}

  lemma FragmentsGrow(w: seq<seq<TimedSample>>, batch: seq<TimedSample>)
    requires Fragments(w) && Opens(batch) && |batch| >= 2
    ensures Fragments(w + [batch])
  {}

  lemma FlushRepresents(cfg: Config, s: State, w: seq<seq<TimedSample>>, writes: bool)
    requires Represents(cfg, s, w)
    ensures
      var closes := |s.current| >= 2 && writes;
      Represents(cfg, Flushed(cfg, s, writes), if closes then w + [s.current] else w)
  {
    hide InfoOf, Fragment, ParamsOf, Stored, Reaped, Infos, Fragments;
    if |s.current| >= 2 && writes {
      hide Oldest;
      var from, to := Oldest(cfg, |w|), Oldest(cfg, |w| + 1);
      var more := w + [s.current];
      FragmentsGrow(w, s.current);
      InfosGrow(cfg, w, s.current);
      FlushedIs(cfg, s, w);
      hide Flushed;
      StoredGrows(s.files, w, s.current, from, to);
      assert |more| == |w| + 1;
    }
  }

  /** The state when the current batch has been written behind those of w. */
  function Moved(cfg: Config, s: State, w: seq<seq<TimedSample>>): State
    requires |s.current| >= 2 && Fragments(w + [s.current])
  {
    hide Fragments, Fragment, ParamsOf;
    var from, to := Oldest(cfg, |w|), Oldest(cfg, |w| + 1);
    var files := s.files[|w| := Fragment(ParamsOf(s.current, |w|))];
    State(s.ready, [], Infos(w + [s.current], to), |w| + 1, if to == from then files else files - {from})
  }

  lemma FlushedIs(cfg: Config, s: State, w: seq<seq<TimedSample>>)
    requires Represents(cfg, s, w) && |s.current| >= 2 && Fragments(w + [s.current])
    ensures Flushed(cfg, s, true) == Moved(cfg, s, w)
  {
    hide InfoOf, Fragment, ParamsOf, Stored, Reaped, Infos, Fragments;
    var from, to := Oldest(cfg, |w|), Oldest(cfg, |w| + 1);
    var all := s.segments + [InfoOf(s.current, |w|)];
    InfosGrow(cfg, w, s.current);
    assert |all| == |w| + 1 - from;
    ReapedOnce(all, s.files[|w| := Fragment(ParamsOf(s.current, |w|))], cfg.windowSize);
    assert all[0..] == all;
  }

  lemma StepRepresents(cfg: Config, s: State, w: seq<seq<TimedSample>>, input: Input)
    requires Represents(cfg, s, w)
    ensures Represents(cfg, Step(cfg, s, input), w + Long(Closed(cfg, s, input)))
  {
    hide Rotates, Flushed, Infos, Stored, Fragments;
    assert w + [] == w;
    if input.tag.Video? {
      FlushRepresents(cfg, s, w, input.writes);
      FlushedCurrent(cfg, s, input.writes);
      LongOne(s.current);
      RotatesAtKey(cfg, s, input.tag.sample);
    }
  }

  lemma RotatesAtKey(cfg: Config, s: State, x: TimedSample)
    ensures Rotates(cfg, s, x) ==> x.key && s.current != []
  {}

  lemma LongOne(batch: seq<TimedSample>)
    ensures Long([batch]) == if |batch| >= 2 then [batch] else []
  {
    assert [batch][1..] == [];
  }

  lemma FlushedCurrent(cfg: Config, s: State, writes: bool)
    ensures Flushed(cfg, s, writes).ready == s.ready
    ensures Flushed(cfg, s, writes).current == if |s.current| >= 2 && !writes then s.current else []
  {}

  lemma {:induction false} RunRepresents(cfg: Config, s: State, w: seq<seq<TimedSample>>, inputs: seq<Input>)
    requires Represents(cfg, s, w)
    ensures Represents(cfg, Run(cfg, s, inputs), w + Long(AllClosed(cfg, s, inputs)))
    decreases |inputs|
  {
    hide Represents, Step, Closed;
    if inputs == [] {
      assert w + [] == w;
    } else {
      var closed, rest := Closed(cfg, s, inputs[0]), AllClosed(cfg, Step(cfg, s, inputs[0]), inputs[1..]);
      StepRepresents(cfg, s, w, inputs[0]);
      RunRepresents(cfg, Step(cfg, s, inputs[0]), w + Long(closed), inputs[1..]);
      LongAppend(closed, rest);
      assert w + Long(closed) + Long(rest) == w + (Long(closed) + Long(rest));
    }
  }

  lemma {:induction false} LongAppend(a: seq<seq<TimedSample>>, b: seq<seq<TimedSample>>)
    ensures Long(a + b) == Long(a) + Long(b)
  {
    if a == [] {
      assert a + b == b;
    } else {
      assert (a + b)[1..] == a[1..] + b;
      LongAppend(a[1..], b);
    }
  }

  /**
    Over every run, failed writes included: the fragments written are, in order, the closed batches
    of at least two samples, each starts with a key frame, and the window and the disk hold exactly
    the last windowSize of them.
   */
  lemma WindowOverRuns(cfg: Config, inputs: seq<Input>, lastWrites: bool)
    ensures
      var s := Run(cfg, START, inputs);
      var w := Long(AllClosed(cfg, START, inputs));
      && Represents(cfg, s, w)
      && Represents(cfg, Flushed(cfg, s, lastWrites), if |s.current| >= 2 && lastWrites then w + [s.current] else w)
  {
    assert Represents(cfg, START, []) by { assert Infos([], 0) == []; }
    hide *;
    RunRepresents(cfg, START, [], inputs);
    var w := Long(AllClosed(cfg, START, inputs));
    assert [] + w == w;
    FlushRepresents(cfg, Run(cfg, START, inputs), w, lastWrites);
  }

  // ----- Times -----

  /** How often the time goes back among the first n + 1 samples. */
  function Drops(c: seq<TimedSample>, n: nat): (d: nat)
    requires n < |c|
    ensures d <= n
  {
    if n == 0 then 0 else Drops(c, n - 1) + if c[n].dts < c[n - 1].dts then 1 else 0
  }

  predicate NeverBack(c: seq<TimedSample>) {
    forall i :: 0 < i < |c| ==> c[i - 1].dts <= c[i].dts
  }

  function Total(samples: seq<Sample>, n: nat): nat
    requires n <= |samples|
  {
    if n == 0 then 0 else Total(samples, n - 1) + samples[n - 1].duration
  }

  lemma Interval32(a: u32, b: u32)
    ensures U32(U64(b - a)) == b - a + if b < a then 0x1_0000_0000 else 0
  {}

  /** The durations of a batch add up to its time, plus a turn of the 32-bit clock for every step back. */
  lemma {:induction false} TotalIs(c: seq<TimedSample>, n: nat)
    requires n < |c|
    ensures Total(Samples(c), n) == c[n].dts - c[0].dts + 0x1_0000_0000 * Drops(c, n)
    decreases n
  {
    if n > 0 {
      TotalIs(c, n - 1);
      Interval32(c[n - 1].dts, c[n].dts);
      assert Samples(c)[n - 1] == SampleOf(c, n - 1);
    }
  }

  lemma {:induction false} NoDrops(c: seq<TimedSample>, n: nat)
    requires n < |c|
    ensures Drops(c, n) == 0 <==> forall i :: 0 < i <= n ==> c[i - 1].dts <= c[i].dts
    decreases n
  {
    if n > 0 {
      NoDrops(c, n - 1);
    }
  }

  lemma {:induction false} PresentedAt(samples: seq<Sample>, base: nat, i: nat, n: nat)
    requires i <= n < |samples|
    ensures |Presented(samples[i..], base + Total(samples, i))| == |samples| - i
    ensures
      Presented(samples[i..], base + Total(samples, i))[n - i] == Shown(samples[n], base + Total(samples, n))
    decreases n - i
  {
    hide Presented;
    var later, at := samples[i..], base + Total(samples, i);
    PresentedLength(later, at);
    PresentedFirst(later, at);
    assert later[0] == samples[i] && later[1..] == samples[i + 1..];
    if i < n {
      PresentedAt(samples, base, i + 1, n);
      assert Total(samples, i + 1) == Total(samples, i) + samples[i].duration;
    }
  }

  lemma PresentedFirst(samples: seq<Sample>, base: nat)
    requires samples != []
    ensures
      var s := samples[0];
      Presented(samples, base) == [Shown(s, base)] + Presented(samples[1..], base + s.duration)
  {}

  lemma {:induction false} PresentedLength(samples: seq<Sample>, base: nat)
    ensures |Presented(samples, base)| == |samples|
  {
    if samples != [] {
      PresentedLength(samples[1..], base + samples[0].duration);
    }
  }

  /** How long sample i lasts: until the next one, and the last as long as the one before it. */
  function Lasting(c: seq<TimedSample>, i: nat): int
    requires |c| >= 2 && i < |c|
  {
    if i + 1 < |c| then c[i + 1].dts - c[i].dts else c[i].dts - c[i - 1].dts
  }

  /** Sample i as a player sees it: its own fields, and 2^32 added for every step back before it. */
  function Played(c: seq<TimedSample>, i: nat): Frame
    requires |c| >= 2 && i < |c|
  {
    Frame(c[i].dts + 0x1_0000_0000 * Drops(c, i), Lasting(c, i) % 0x1_0000_0000, c[i].cts, c[i].key,
          if c[i].key then 2 else 1, c[i].data)
  }

  predicate FitsFields(c: seq<TimedSample>) {
    && c != []
    && 8 + |AllData(Samples(c))| < 0x1_0000_0000
    && 96 + 16 * |c| < 0x8000_0000
  }

  /**
    Playing a fragment file gives back every sample of its batch. Its times are those of the batch
    plus 2^32 for every step back before them: all of them exact just when the time never goes back.
    The segment's record starts at the batch's first time, and lasts to its last and the last one's
    duration just when the time never goes back.
   */
  lemma {:induction false} FilePlays(c: seq<TimedSample>, seqNo: nat)
    requires FitsFields(c) && |c| >= 2
    ensures
      var played := Play(Fragment(ParamsOf(c, seqNo)));
      && played.Some?
      && played.value.trackID == 1 && played.value.sequenceNumber == (seqNo + 1) % 0x1_0000_0000
      && |played.value.frames| == |c|
      && (forall i :: 0 <= i < |c| ==> played.value.frames[i] == Played(c, i))
      && (NeverBack(c) <==> forall i :: 0 <= i < |c| ==> played.value.frames[i].dts == c[i].dts)
    ensures
      var info := InfoOf(c, seqNo);
      && info.seqNo == seqNo && info.startTime == c[0].dts
      && (NeverBack(c) <==> info.duration == Total(Samples(c), |c|))
      && (NeverBack(c) ==> info.duration == c[|c| - 1].dts - c[0].dts + Lasting(c, |c| - 1))
  {
    hide *;
    FileInRange(c, seqNo);
    FragmentPlays(ParamsOf(c, seqNo));
    ParamsAre(c, seqNo);
    BatchPresented(c);
    ExactTimes(c);
    Duration(c, seqNo);
    Recorded(c, seqNo);
    forall i | 0 <= i < |c|
      ensures Played(c, i).dts == c[i].dts + 0x1_0000_0000 * Drops(c, i)
    {
      PlayedAt(c, i);
    }
  }

  lemma PlayedAt(c: seq<TimedSample>, i: nat)
    requires |c| >= 2 && i < |c|
    ensures Played(c, i).dts == c[i].dts + 0x1_0000_0000 * Drops(c, i)
  {}

  lemma Low(x: int)
    requires -0x1_0000_0000 < x < 0x1_0000_0000
    ensures U32(U64(x)) == x % 0x1_0000_0000
  {}

  lemma IntervalIs(c: seq<TimedSample>, i: nat)
    requires |c| >= 2 && i < |c|
    ensures U32(Interval(c, i)) == Lasting(c, i) % 0x1_0000_0000
  {
    hide U32, U64;
    Low(Lasting(c, i));
  }

  /** A batch that lasts from one time to another, its last sample for as long as given. */
  lemma Span(end: u32, tail: u32, start: u32)
    requires start <= end
    ensures U64(U64(end + tail) - start) == end - start + tail
  {}

  /** The record of a batch. */
  lemma Recorded(c: seq<TimedSample>, seqNo: nat)
    requires |c| >= 2
    ensures
      var info := InfoOf(c, seqNo);
      && info.seqNo == seqNo && info.startTime == c[0].dts
      && (NeverBack(c) ==> info.duration == c[|c| - 1].dts - c[0].dts + Lasting(c, |c| - 1))
  {
    hide Drops, U32, U64, Interval;
    var last := |c| - 1;
    IntervalIs(c, last);
    if NeverBack(c) {
      NoDrops(c, last);
      FirstLeast(c, last);
      Span(c[last].dts, U32(Interval(c, last)), c[0].dts);
    }
  }

  lemma ParamsAre(c: seq<TimedSample>, seqNo: nat)
    requires FitsFields(c)
    ensures c != [] && |c| < 0x1_0000_0000
    ensures
      var p := ParamsOf(c, seqNo);
      p.trackID == 1 && p.samples == Samples(c) && p.baseDecodeTime == c[0].dts && p.sequenceNumber == (seqNo + 1) % 0x1_0000_0000
  {}

  lemma BatchPresented(c: seq<TimedSample>)
    requires |c| >= 2
    ensures
      var frames := Presented(Samples(c), c[0].dts);
      |frames| == |c| && forall i :: 0 <= i < |c| ==> frames[i] == Played(c, i)
  {
    hide Presented, Drops, Total, SampleOf, Played, Shown;
    var samples, frames := Samples(c), Presented(Samples(c), c[0].dts);
    PresentedLength(samples, c[0].dts);
    forall i | 0 <= i < |c|
      ensures frames[i] == Played(c, i)
    {
      NoTime(samples);
      PresentedAt(samples, c[0].dts, 0, i);
      TotalIs(c, i);
      SampleShown(c, i);
    }
  }

  lemma NoTime(samples: seq<Sample>)
    ensures Total(samples, 0) == 0 && samples[0..] == samples
  {}

  lemma SampleShown(c: seq<TimedSample>, i: nat)
    requires |c| >= 2 && i < |c|
    ensures Shown(Samples(c)[i], c[i].dts + 0x1_0000_0000 * Drops(c, i)) == Played(c, i)
  {
    hide Interval, Drops, U32, Lasting;
    IntervalIs(c, i);
  }

  lemma ExactTimes(c: seq<TimedSample>)
    requires c != []
    ensures NeverBack(c) <==> forall i :: 0 <= i < |c| ==> c[i].dts + 0x1_0000_0000 * Drops(c, i) == c[i].dts
  {
    hide Drops;
    forall i | 0 <= i < |c|
      ensures Drops(c, i) == 0 <==> forall j :: 0 < j <= i ==> c[j - 1].dts <= c[j].dts
    {
      NoDrops(c, i);
    }
    assert Drops(c, |c| - 1) == 0 <==> NeverBack(c);
  }

  lemma FileInRange(c: seq<TimedSample>, seqNo: nat)
    requires FitsFields(c)
    ensures InRange(ParamsOf(c, seqNo))
  {
    var p := ParamsOf(c, seqNo);
    Lengths(p, 0);
    hide AllData, Moof, SampleOf;
    forall i | 0 <= i < |c|
      ensures p.samples[i].size == |p.samples[i].data|
    {
      assert p.samples[i] == SampleOf(c, i);
      DataWithin(p.samples, i);
      SizeIs(c, i);
    }
  }

  lemma SizeIs(c: seq<TimedSample>, i: nat)
    requires i < |c|
    ensures SampleOf(c, i).data == c[i].data
    ensures |c[i].data| < 0x1_0000_0000 ==> SampleOf(c, i).size == |c[i].data|
  {}

  lemma {:induction false} DataWithin(samples: seq<Sample>, i: nat)
    requires i < |samples|
    ensures |samples[i].data| <= |AllData(samples)|
  {
    if i > 0 {
      DataWithin(samples[1..], i - 1);
    }
  }

  lemma Duration(c: seq<TimedSample>, seqNo: nat)
    requires 2 <= |c| < 0x1_0000_0000
    ensures NeverBack(c) <==> InfoOf(c, seqNo).duration == Total(Samples(c), |c|)
  {
    var last := |c| - 1;
    TotalIs(c, last);
    NoDrops(c, last);
    assert Samples(c)[last] == SampleOf(c, last);
    var tail := U32(Interval(c, last));
    assert Total(Samples(c), |c|) == c[last].dts - c[0].dts + 0x1_0000_0000 * Drops(c, last) + tail;
    Wrapped(c[last].dts + tail, c[0].dts, Drops(c, last));
    assert Drops(c, last) == 0 ==> c[0].dts <= c[last].dts by {
      if Drops(c, last) == 0 { FirstLeast(c, last); }
    }
  }

  lemma {:induction false} FirstLeast(c: seq<TimedSample>, n: nat)
    requires n < |c| && Drops(c, n) == 0
    ensures c[0].dts <= c[n].dts
  {
    if n > 0 {
      FirstLeast(c, n - 1);
    }
  }

  lemma Wrapped(end: nat, start: u32, drops: nat)
    requires end < 0x2_0000_0000 && drops < 0x1_0000_0000
    requires drops == 0 ==> start <= end
    ensures U64(U64(end) - start) == end - start + 0x1_0000_0000 * drops <==> drops == 0
  {}
}