/**
  The SRT receiver of libsrt/listener.go and libsrt/control.go: 31-bit modular sequence
  arithmetic on unmasked 32-bit state, against a receiver that counts without bound.
 */
module SrtReceiver {
  import opened Bytes

  const MODULUS: int := 0x8000_0000
  const HALF: int := 0x4000_0000

  // ----- Sequence arithmetic -----

  function SeqDiff(a: u32, b: u32): int {
    var d := U32(a - b) % MODULUS;
    if d > HALF then -(MODULUS - 1 - d + 1) else d
  }

  /** The wrapped difference is the true one exactly within half the number space. */
  lemma SeqDiffExact(x: int, y: int, a: u32, b: u32)
    requires a % MODULUS == x % MODULUS && b % MODULUS == y % MODULUS
    ensures SeqDiff(a, b) == x - y <==> -HALF < x - y <= HALF
  {
    DifferenceKept(x, y, a, b);
    Folded(x - y);
  }

  lemma SameMod(x: int, y: int, turns: int)
    requires x == y + MODULUS * turns
    ensures x % MODULUS == y % MODULUS
  {}

  lemma DifferenceKept(x: int, y: int, a: u32, b: u32)
    requires a % MODULUS == x % MODULUS && b % MODULUS == y % MODULUS
    ensures U32(a - b) % MODULUS == (x - y) % MODULUS
  {
    var z: int := a as int - b;
    assert z == U32(z) + 2 * MODULUS * (z / 0x1_0000_0000);
    SameMod(z, U32(z), 2 * (z / 0x1_0000_0000));
    SameMod(x - y, z, x / MODULUS - a / MODULUS - (y / MODULUS - b / MODULUS));
  }

  lemma Folded(z: int)
    ensures
      var d := z % MODULUS;
      (if d > HALF then -(MODULUS - 1 - d + 1) else d) == z <==> -HALF < z <= HALF
  {
    assert z == z % MODULUS + MODULUS * (z / MODULUS);
  }

  // ----- Loss lists -----

  datatype LossRange = LossRange(from: u32, to: u32)

  function MarshalOne(lr: LossRange): seq<byte> {
    if lr.from == lr.to then Put32(lr.from % MODULUS)
    else Put32(lr.from % MODULUS + MODULUS) + Put32(lr.to % MODULUS)
  }

  function Marshalled(losses: seq<LossRange>): seq<byte> {
    if losses == [] then [] else Marshalled(losses[..|losses| - 1]) + MarshalOne(losses[|losses| - 1])
  }

  method MarshalNAK(losses: seq<LossRange>) returns (out: seq<byte>)
    ensures out == Marshalled(losses)
  {
    out := [];
    for i := 0 to |losses|
      invariant out == Marshalled(losses[..i])
    {
      var lr := losses[i];
      assert losses[..i + 1][..i] == losses[..i];
      if lr.from == lr.to {
        out := out + Put32(lr.from % MODULUS);
        continue;
      }
      var w1, w2 := Put32(lr.from % MODULUS + MODULUS), Put32(lr.to % MODULUS);
      assert out + w1 + w2 == out + (w1 + w2);
      out := out + w1;
      out := out + w2;
    }
    assert losses[..|losses|] == losses;
  }

  /** The ranges in a body; one cut off in the middle ends the list. */
  function Parsed(body: seq<byte>): seq<LossRange>
    decreases |body|
  {
    if |body| < 4 then []
    else
      var w := Get32(body[..4]);
      if w >= MODULUS then
        if |body| < 8 then [] else [LossRange(w - MODULUS, Get32(body[4..8]))] + Parsed(body[8..])
      else [LossRange(w, w)] + Parsed(body[4..])
  }

  lemma ParsedAt(body: seq<byte>, off: nat)
    requires off + 4 <= |body|
    ensures
      var w := Get32(body[off..off + 4]);
      Parsed(body[off..])
      == if w >= MODULUS then
           if off + 8 > |body| then [] else [LossRange(w - MODULUS, Get32(body[off + 4..off + 8]))] + Parsed(body[off + 8..])
         else [LossRange(w, w)] + Parsed(body[off + 4..])
  {
    hide Get32;
    var rest := body[off..];
    assert rest[..4] == body[off..off + 4] && rest[4..] == body[off + 4..];
    if off + 8 <= |body| {
      assert rest[4..8] == body[off + 4..off + 8] && rest[8..] == body[off + 8..];
    }
  }

  lemma NothingParsed(body: seq<byte>)
    ensures body[0..] == body
    ensures forall off :: 0 <= off <= |body| && off + 4 > |body| ==> Parsed(body[off..]) == []
  {}

  method ParseNAK(body: seq<byte>) returns (out: seq<LossRange>)
    ensures out == Parsed(body)
  {
    hide Get32, Parsed;
    out := [];
    var off := 0;
    NothingParsed(body);
    while off + 4 <= |body|
      invariant 0 <= off <= |body|
      invariant Parsed(body) == out + Parsed(body[off..])
    {
      ParsedAt(body, off);
      var w := Get32(body[off..off + 4]);
      if w >= MODULUS {
        if off + 8 > |body| {
          return;
        }
        out := out + [LossRange(w - MODULUS, Get32(body[off + 4..off + 8]))];
        off := off + 8;
        continue;
      }
      out := out + [LossRange(w, w)];
      off := off + 4;
    }
  }

  function Masked(losses: seq<LossRange>): seq<LossRange> {
    seq(|losses|, i requires 0 <= i < |losses| => LossRange(losses[i].from % MODULUS, losses[i].to % MODULUS))
  }

  lemma ParseOne(lr: LossRange, rest: seq<byte>)
    ensures Parsed(MarshalOne(lr) + rest) == [LossRange(lr.from % MODULUS, lr.to % MODULUS)] + Parsed(rest)
  {
    hide Put32, Get32;
    var s := MarshalOne(lr) + rest;
    if lr.from == lr.to {
      var w := Put32(lr.from % MODULUS);
      GetPut32(lr.from % MODULUS, []);
      assert w + [] == w;
      assert s[..4] == w && s[4..] == rest;
    } else {
      var w1, w2 := Put32(lr.from % MODULUS + MODULUS), Put32(lr.to % MODULUS);
      GetPut32(lr.from % MODULUS + MODULUS, []);
      GetPut32(lr.to % MODULUS, []);
      assert w1 + [] == w1 && w2 + [] == w2;
      assert s[..4] == w1 && s[4..8] == w2 && s[8..] == rest;
    }
  }

  lemma {:induction false} ParseMarshalled(losses: seq<LossRange>, rest: seq<byte>)
    ensures Parsed(Marshalled(losses) + rest) == Masked(losses) + Parsed(rest)
  {
    hide MarshalOne, Parsed;
    if losses == [] {
      assert Marshalled(losses) + rest == rest;
      assert Masked(losses) + Parsed(rest) == Parsed(rest);
    } else {
      var init, lr := losses[..|losses| - 1], losses[|losses| - 1];
      assert Marshalled(losses) + rest == Marshalled(init) + (MarshalOne(lr) + rest);
      ParseMarshalled(init, MarshalOne(lr) + rest);
      ParseOne(lr, rest);
      assert Masked(losses) == Masked(init) + [LossRange(lr.from % MODULUS, lr.to % MODULUS)];
    }
  }

  /** A loss list is read back, every number modulo 2^31. */
  lemma NakRoundTrip(losses: seq<LossRange>)
    ensures Parsed(Marshalled(losses)) == Masked(losses)
  {
    ParseMarshalled(losses, []);
    assert Marshalled(losses) + [] == Marshalled(losses);
    assert Masked(losses) + Parsed([]) == Masked(losses);
  }

  // ----- The receiver of the source -----

  /** One session: what it expects, how often it acknowledged, and what it has handed on and sent. */
  datatype Receiver = Receiver(
    expectedSeq: u32, ackNum: u32, acked: bool,
    delivered: seq<u32>, naks: seq<seq<byte>>, acks: seq<u32>)

  function Acknowledged(r: Receiver, elapsed: bool): Receiver {
    if r.acked && !elapsed then r
    else r.(acked := true, ackNum := U32(r.ackNum + 1), acks := r.acks + [r.expectedSeq])
  }

  /** One data packet; `elapsed` is whether the acknowledgement interval has passed since the last one. */
  function Arrive(r: Receiver, seqNumber: u32, elapsed: bool): Receiver {
    var r1 := if r.expectedSeq == 0 && r.ackNum == 0 then r.(expectedSeq := seqNumber) else r;
    var diff := SeqDiff(seqNumber, r1.expectedSeq);
    if diff < 0 then r1
    else
      var r2 :=
        if diff > 0 then
          r1.(expectedSeq := U32(seqNumber + 1),
              naks := r1.naks + [Marshalled([LossRange(r1.expectedSeq, U32(seqNumber - 1))])])
        else r1.(expectedSeq := U32(r1.expectedSeq + 1));
      Acknowledged(r2.(delivered := r2.delivered + [seqNumber]), elapsed)
  }

  class Session {
    var expectedSeq: u32
    var ackNum: u32
    var lastACK: bool  // whether the time of the last acknowledgement is set
    var receivedSeqs: u64
    var onData: seq<u32>  // numbers of the packets handed to the data handler
    var naks: seq<seq<byte>>  // bodies of the loss reports sent
    var acks: seq<u32>  // numbers acknowledged so far

    constructor (initialSequence: u32)
      ensures Now() == Receiver(initialSequence, 0, false, [], [], [])
    {
      expectedSeq, ackNum, lastACK, receivedSeqs := initialSequence, 0, false, 0;
      onData, naks, acks := [], [], [];
    }

    ghost function Now(): Receiver
      reads this
    {
      Receiver(expectedSeq, ackNum, lastACK, onData, naks, acks)
    }

    method HandleDataPacket(seqNumber: u32, elapsed: bool)
      modifies this
      ensures Now() == Arrive(old(Now()), seqNumber, elapsed)
      ensures receivedSeqs == U64(old(receivedSeqs) + 1)
    {
      hide SeqDiff, Marshalled;
      if expectedSeq == 0 && ackNum == 0 {
        expectedSeq := seqNumber;
      }
      var diff := SeqDiff(seqNumber, expectedSeq);
      receivedSeqs := U64(receivedSeqs + 1);
      if diff < 0 {
        return;
      } else if diff > 0 {
        var from := expectedSeq;
        var to := U32(seqNumber - 1);
        expectedSeq := U32(seqNumber + 1);
        SendNAK(from, to);
      } else {
        expectedSeq := U32(expectedSeq + 1);
      }
      onData := onData + [seqNumber];
      MaybeSendACK(elapsed);
    }

    method SendNAK(from: u32, to: u32)
      modifies `naks
      ensures naks == old(naks) + [Marshalled([LossRange(from, to)])]
    {
      var body := MarshalNAK([LossRange(from, to)]);
      naks := naks + [body];
    }

    method MaybeSendACK(elapsed: bool)
      modifies `lastACK, `ackNum, `acks
      ensures Now() == Acknowledged(old(Now()), elapsed)
    {
      if lastACK && !elapsed {
        return;
      }
      lastACK := true;
      ackNum := U32(ackNum + 1);
      acks := acks + [expectedSeq];
    }
  }

  // ----- The receiver that counts without bound -----

  datatype Range = Range(from: int, to: int)

  /** What it expects next, the numbers it handed on, the ranges it reported lost, the numbers it acknowledged. */
  datatype Counter = Counter(expected: int, delivered: seq<int>, lost: seq<Range>, acks: seq<int>)

  datatype Arrival = Arrival(number: int, elapsed: bool)

  function Count(t: Counter, a: Arrival): Counter {
    if a.number < t.expected then t
    else
      var t1 := t.(expected := a.number + 1, delivered := t.delivered + [a.number],
                   lost := t.lost + if a.number > t.expected then [Range(t.expected, a.number - 1)] else []);
      if t.acks != [] && !a.elapsed then t1 else t1.(acks := t1.acks + [t1.expected])
  }

  function CountAll(t: Counter, arrivals: seq<Arrival>): Counter
    decreases |arrivals|
  {
    if arrivals == [] then t else CountAll(Count(t, arrivals[0]), arrivals[1..])
  }

  /** Each arrival is within half the number space of what is expected then. */
  predicate Near(t: Counter, arrivals: seq<Arrival>)
    decreases |arrivals|
  {
    arrivals == []
    || (-HALF < arrivals[0].number - t.expected <= HALF && Near(Count(t, arrivals[0]), arrivals[1..]))
  }

  function ArriveAll(r: Receiver, arrivals: seq<Arrival>): Receiver
    decreases |arrivals|
  {
    if arrivals == [] then r
    else ArriveAll(Arrive(r, arrivals[0].number % MODULUS, arrivals[0].elapsed), arrivals[1..])
  }

  predicate SameNumbers(us: seq<u32>, xs: seq<int>) {
    |us| == |xs| && forall i :: 0 <= i < |us| ==> us[i] % MODULUS == xs[i] % MODULUS
  }

  /** Each loss report, parsed, is the one lost range. */
  predicate SameRanges(naks: seq<seq<byte>>, lost: seq<Range>) {
    |naks| == |lost|
    && forall i :: 0 <= i < |naks| ==> Parsed(naks[i]) == [LossRange(lost[i].from % MODULUS, lost[i].to % MODULUS)]
  }

  /** The state of the source stands for the counting receiver's, modulo 2^31. */
  predicate Refines(r: Receiver, t: Counter) {
    && r.expectedSeq % MODULUS == t.expected % MODULUS
    && r.ackNum == U32(|t.acks|) && (r.acked <==> t.acks != [])
    && SameNumbers(r.delivered, t.delivered) && SameRanges(r.naks, t.lost) && SameNumbers(r.acks, t.acks)
  }

  /** The baseline is settled: zero is no longer taken for "nothing received yet". */
  predicate Settled(r: Receiver) {
    r.ackNum == 0 ==> r.expectedSeq != 0
  }

  lemma Same(us: seq<u32>, xs: seq<int>, u: u32, x: int)
    requires SameNumbers(us, xs) && u % MODULUS == x % MODULUS
    ensures SameNumbers(us + [u], xs + [x])
  {}

  lemma ReportedRange(from: u32, to: u32, lost: Range)
    requires from % MODULUS == lost.from % MODULUS && to % MODULUS == lost.to % MODULUS
    ensures Parsed(Marshalled([LossRange(from, to)])) == [LossRange(lost.from % MODULUS, lost.to % MODULUS)]
  {
    hide Parsed, Marshalled;
    NakRoundTrip([LossRange(from, to)]);
  }

  lemma WrapSteps(number: int, seqNumber: u32)
    requires seqNumber == number % MODULUS
    ensures U32(seqNumber + 1) % MODULUS == (number + 1) % MODULUS
    ensures U32(seqNumber - 1) % MODULUS == (number - 1) % MODULUS
  {
    WrapNext(seqNumber, number);
    var before: int := seqNumber as int - 1;
    SameMod(before, U32(before), 2 * (before / 0x1_0000_0000));
    SameMod(number - 1, before, number / MODULUS);
  }

  lemma WrapNext(expectedSeq: u32, expected: int)
    requires expectedSeq % MODULUS == expected % MODULUS
    ensures U32(expectedSeq + 1) % MODULUS == (expected + 1) % MODULUS
  {
    var next: int := expectedSeq as int + 1;
    SameMod(next, U32(next), 2 * (next / 0x1_0000_0000));
    SameMod(expected + 1, next, expected / MODULUS - expectedSeq / MODULUS);
  }

  lemma AcksCounted(n: nat)
    requires n < 0x1_0000_0000
    ensures U32(n) == n && (n + 1 < 0x1_0000_0000 ==> U32(n + 1) == n + 1)
  {}

  /** One arrival keeps the correspondence. */
  lemma ArriveRefines(r: Receiver, t: Counter, a: Arrival)
    requires Refines(r, t) && Settled(r)
    requires -HALF < a.number - t.expected <= HALF
    requires |Count(t, a).acks| < 0x1_0000_0000
    ensures Refines(Arrive(r, a.number % MODULUS, a.elapsed), Count(t, a))
    ensures Settled(Arrive(r, a.number % MODULUS, a.elapsed))
  {
    hide SeqDiff, Marshalled, Parsed, SameNumbers, SameRanges, U32;
    var n := a.number % MODULUS;
    SeqDiffExact(a.number, t.expected, n, r.expectedSeq);
    AcksCounted(|t.acks|);
    if a.number >= t.expected {
      WrapSteps(a.number, n);
      WrapNext(r.expectedSeq, t.expected);
      Same(r.delivered, t.delivered, n, a.number);
      var r' := Arrive(r, n, a.elapsed);
      var t' := Count(t, a);
      if a.number > t.expected {
        var lost := Range(t.expected, a.number - 1);
        ReportedRange(r.expectedSeq, U32(n - 1), lost);
        SameOneMore(r.naks, t.lost, Marshalled([LossRange(r.expectedSeq, U32(n - 1))]), lost);
      } else {
        assert t.lost + [] == t.lost;
      }
      assert r'.expectedSeq % MODULUS == t'.expected % MODULUS;
      Same(r.acks, t.acks, r'.expectedSeq, t'.expected);
    }
  }

  lemma SameOneMore(naks: seq<seq<byte>>, lost: seq<Range>, nak: seq<byte>, range: Range)
    requires SameRanges(naks, lost) && Parsed(nak) == [LossRange(range.from % MODULUS, range.to % MODULUS)]
    ensures SameRanges(naks + [nak], lost + [range])
  {}

  lemma {:induction false} AcksGrow(t: Counter, arrivals: seq<Arrival>)
    ensures |t.acks| <= |CountAll(t, arrivals).acks|
    decreases |arrivals|
  {
    if arrivals == [] {
    } else {
      AcksGrow(Count(t, arrivals[0]), arrivals[1..]);
    }
  }

  /**
    Over every run whose arrivals stay within half the number space of what is expected, and which
    acknowledges fewer than 2^32 times, the source does what the counting receiver does.
   */
  lemma {:induction false} RunRefines(r: Receiver, t: Counter, arrivals: seq<Arrival>)
    requires Refines(r, t) && Settled(r) && Near(t, arrivals)
    requires |CountAll(t, arrivals).acks| < 0x1_0000_0000
    ensures Refines(ArriveAll(r, arrivals), CountAll(t, arrivals))
    decreases |arrivals|
  {
    hide Refines, Arrive;
    if arrivals == [] {
    } else {
      AcksGrow(Count(t, arrivals[0]), arrivals[1..]);
      ArriveRefines(r, t, arrivals[0]);
      RunRefines(Arrive(r, arrivals[0].number % MODULUS, arrivals[0].elapsed), Count(t, arrivals[0]), arrivals[1..]);
    }
  }

  /** A session starts at the handshake's number or, when that is zero, at its first packet's. */
  lemma {:induction false} SessionRefines(initialSequence: u32, baseline: int, arrivals: seq<Arrival>)
    requires if initialSequence != 0 then baseline == initialSequence else arrivals != [] && baseline == arrivals[0].number
    requires Near(Counter(baseline, [], [], []), arrivals)
    requires |CountAll(Counter(baseline, [], [], []), arrivals).acks| < 0x1_0000_0000
    ensures Refines(ArriveAll(Receiver(initialSequence, 0, false, [], [], []), arrivals),
                    CountAll(Counter(baseline, [], [], []), arrivals))
  {
    hide Arrive;
    var r, t := Receiver(initialSequence, 0, false, [], [], []), Counter(baseline, [], [], []);
    if initialSequence != 0 {
      RunRefines(r, t, arrivals);
    } else {
      // adopting the first number is starting from it, and its packet is acknowledged at once
      var a := arrivals[0];
      FirstAdopted(a);
      RunRefines(Arrive(r, a.number % MODULUS, a.elapsed), Count(t, a), arrivals[1..]);
    }
  }

  lemma FirstAdopted(a: Arrival)
    ensures
      var r := Arrive(Receiver(0, 0, false, [], [], []), a.number % MODULUS, a.elapsed);
      var t := Count(Counter(a.number, [], [], []), a);
      Refines(r, t) && Settled(r) && |t.acks| == 1
  {
    var n: u32 := a.number % MODULUS;
    assert SameNumbers([], []) && SameRanges([], []) && SeqDiff(n, n) == 0 && U32(0 + 1) == 1;
    WrapSteps(a.number, n);
    hide SeqDiff, Marshalled, Parsed, SameNumbers, SameRanges, U32;
    Same([], [], n, a.number);
    Same([], [], U32(n + 1), a.number + 1);
    assert [] + [n] == [n] && [] + [a.number] == [a.number];
    assert [] + [U32(n + 1)] == [U32(n + 1)] && [] + [a.number + 1] == [a.number + 1];
  }

  // ----- What the counting receiver keeps -----

  /** How often a number has been handed on or reported lost. */
  function Times(t: Counter, k: int): nat {
    Handed(t.delivered, k) + Reported(t.lost, k)
  }

  function Handed(xs: seq<int>, k: int): nat {
    if xs == [] then 0 else Handed(xs[..|xs| - 1], k) + if xs[|xs| - 1] == k then 1 else 0
  }

  function Reported(rs: seq<Range>, k: int): nat {
    if rs == [] then 0
    else Reported(rs[..|rs| - 1], k) + if rs[|rs| - 1].from <= k <= rs[|rs| - 1].to then 1 else 0
  }

  /**
    Every number from the baseline to the expected one was handed on or reported lost exactly once, and no
    other number ever was; what was handed on only grows, and so do the acknowledgements.
   */
  ghost predicate Partitioned(t: Counter, baseline: int) {
    && baseline <= t.expected
    && (forall k :: Times(t, k) == if baseline <= k < t.expected then 1 else 0)
    && Growing(t.delivered, t.expected - 1)
    && Growing(t.acks, t.expected)
  }

  predicate Growing(xs: seq<int>, bound: int) {
    && (forall i, j :: 0 <= i < j < |xs| ==> xs[i] < xs[j])
    && (forall i :: 0 <= i < |xs| ==> xs[i] <= bound)
  }

  lemma CountTimes(t: Counter, a: Arrival, k: int)
    requires a.number >= t.expected
    ensures Times(Count(t, a), k) == Times(t, k) + if t.expected <= k <= a.number then 1 else 0
  {
    var t' := Count(t, a);
    assert t'.delivered[..|t'.delivered| - 1] == t.delivered;
    if a.number > t.expected {
      assert t'.lost[..|t'.lost| - 1] == t.lost;
    } else {
      assert t'.lost == t.lost;
    }
  }

  lemma GrowingMore(xs: seq<int>, bound: int, x: int)
    requires Growing(xs, bound) && bound < x
    ensures Growing(xs + [x], x)
  {}

  lemma CountPartitions(t: Counter, a: Arrival, baseline: int)
    requires Partitioned(t, baseline)
    ensures Partitioned(Count(t, a), baseline)
  {
    hide Times, Growing;
    var t' := Count(t, a);
    if a.number >= t.expected {
      forall k
        ensures Times(t', k) == if baseline <= k < t'.expected then 1 else 0
      {
        CountTimes(t, a, k);
      }
      GrowingMore(t.delivered, t.expected - 1, a.number);
      if t'.acks == t.acks {
        GrowingLater(t.acks, t.expected, t'.expected);
      } else {
        GrowingMore(t.acks, t.expected, t'.expected);
      }
    }
  }

  lemma GrowingLater(xs: seq<int>, bound: int, bound': int)
    requires Growing(xs, bound) && bound <= bound'
    ensures Growing(xs, bound')
  {}

  lemma {:induction false} RunPartitions(t: Counter, arrivals: seq<Arrival>, baseline: int)
    requires Partitioned(t, baseline)
    ensures Partitioned(CountAll(t, arrivals), baseline)
    decreases |arrivals|
  {
    hide Partitioned, Count;
    if arrivals == [] {
    } else {
      CountPartitions(t, arrivals[0], baseline);
      RunPartitions(Count(t, arrivals[0]), arrivals[1..], baseline);
    }
  }

  /** A whole session: the source stands for a counting receiver that accounts for every number once. */
  lemma {:induction false} SessionAccounts(initialSequence: u32, baseline: int, arrivals: seq<Arrival>)
    requires if initialSequence != 0 then baseline == initialSequence else arrivals != [] && baseline == arrivals[0].number
    requires Near(Counter(baseline, [], [], []), arrivals)
    requires |CountAll(Counter(baseline, [], [], []), arrivals).acks| < 0x1_0000_0000
    ensures
      var t := CountAll(Counter(baseline, [], [], []), arrivals);
      && Refines(ArriveAll(Receiver(initialSequence, 0, false, [], [], []), arrivals), t)
      && Partitioned(t, baseline)
  {
    SessionRefines(initialSequence, baseline, arrivals);
    RunPartitions(Counter(baseline, [], [], []), arrivals, baseline);
  }
}
