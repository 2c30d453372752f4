/**
  One PES unit as a run of transport packets: the inner loop of libhls/hls.go over
  `NewTs(..).Mux(..)`, and exactly when the packets carry the unit and nothing else.
 */
module TsUnit {
  import opened Bytes
  import opened Pes
  import opened TsMux
  import opened Wrappers

  datatype Run = Run(packets: seq<seq<byte>>, ok: bool)

  /** The packets cut from u from p on, up to the last one or the first that goes wrong. */
  function MuxRun(pid: u16, cc: byte, start: bool, key: bool, dts: u64, u: seq<byte>, p: nat): Run
    requires Media(pid) && p <= |u|
    decreases |u| - p
  {
    var c := CutAt(pid, start, cc, key && start, dts, u, p, |u| - p);
    if c.err then Run([c.packet], false)
    else if c.finish then Run([c.packet], true)
    else
      RoomTaken(pid, start, cc, key && start, dts, u, p);
      var r := MuxRun(pid, (cc + 1) % 0x10, false, key, dts, u, p + c.taken);
      Run([c.packet] + r.packets, r.ok)
  }

  lemma RoomTaken(pid: u16, start: bool, cc: byte, key: bool, dts: u64, u: seq<byte>, p: nat)
    requires Media(pid) && p <= |u|
    ensures
      var c := CutAt(pid, start, cc, key, dts, u, p, |u| - p);
      var room := Room(key, |u| - p);
      && c.taken == Min(room, |u| - p)
      && (c.finish <==> room > 0 && |u| - p <= room)
      && (!c.err && !c.finish ==> c.taken >= 176)
  {
    hide Front, Attached, FieldRejected, Packet;
    FrontSize(pid, start, cc, key, dts, |u| - p);
  }

  /** The first packet, and the run behind it. */
  lemma RunStep(pid: u16, cc: byte, start: bool, key: bool, dts: u64, u: seq<byte>, p: nat)
    requires Media(pid) && p <= |u|
    ensures
      var c := CutAt(pid, start, cc, key && start, dts, u, p, |u| - p);
      && (!c.err && !c.finish ==> 0 < c.taken && p + c.taken < |u|)
      && MuxRun(pid, cc, start, key, dts, u, p)
      == if c.err then Run([c.packet], false)
         else if c.finish then Run([c.packet], true)
         else
           var rest := MuxRun(pid, (cc + 1) % 0x10, false, key, dts, u, p + c.taken);
           Run([c.packet] + rest.packets, rest.ok)
  {
    hide CutAt;
    RoomTaken(pid, start, cc, key && start, dts, u, p);
  }

  function Flatten(ps: seq<seq<byte>>): seq<byte> {
    if ps == [] then [] else ps[0] + Flatten(ps[1..])
  }

  lemma {:induction false} FlattenAppend(a: seq<seq<byte>>, b: seq<seq<byte>>)
    ensures Flatten(a + b) == Flatten(a) + Flatten(b)
  {
    if a == [] {
      assert a + b == b && [] + Flatten(b) == Flatten(b);
    } else {
      FlattenAppend(a[1..], b);
      FlattenFirst(a);
      FlattenFirst(a + b);
      hide Flatten;
      assert (a + b)[1..] == a[1..] + b;
      Regroup(a[0], Flatten(a[1..]), Flatten(b));
    }
  }

  lemma FlattenFirst(ps: seq<seq<byte>>)
    requires ps != []
    ensures Flatten(ps) == ps[0] + Flatten(ps[1..])
  {
  }

  /** The unit u is the header and data of pes, read up to its position. */
  ghost predicate Reading(pes: PES, u: seq<byte>)
    reads pes
  {
    && pes.Valid() && u == pes.HeaderNow() + pes.data
    && (pes.Position() > 0 ==> pes.index > 0 && pes.Prepared())
  }

  method WritePacket(pes: PES, pid: u16, key: bool, firstTS: bool, cc: Counters, writer: EasyWriter, ghost u: seq<byte>)
    returns (finish: bool, muxErr: bool)
    requires Media(pid) && Reading(pes, u) && pes.Position() <= |u| && (firstTS <==> pes.Position() == 0)
    modifies pes, cc, writer
    ensures pes.Source() == old(pes.Source())
    ensures
      var p := old(pes.Position());
      var c := CutAt(pid, firstTS, CounterOf(old(cc.next), pid), key && firstTS, old(pes.dts), u, p, |u| - p);
      && Cuts(c, old(writer.written), writer.written, pes.Position() - p, finish, muxErr)
      && (!c.err && !c.finish ==> Reading(pes, u) && p < pes.Position() <= |u|)
    ensures cc.next == Bump(old(cc.next), pid)
  {
    hide Header, CutAt, Bump, Cuts;
    ghost var p, header := pes.Position(), pes.HeaderNow();
    RoomTaken(pid, firstTS, CounterOf(cc.next, pid), key && firstTS, pes.dts, u, p);
    var ts := new TS(pid, cc, firstTS);
    ghost var order;
    finish, muxErr, order := ts.Mux(PesPayload(pes), key && firstTS, pes.dts, writer);
    assert pes.Unit() == u;
    ghost var c := CutAt(pid, firstTS, CounterOf(old(cc.next), pid), key && firstTS, old(pes.dts), u, p, |u| - p);
    CutsTaken(c, old(writer.written), writer.written, pes.Position() - p, finish, muxErr);
  }

  lemma CutsTaken(c: Cut, before: seq<byte>, after: seq<byte>, taken: int, finish: bool, err: bool)
    requires Cuts(c, before, after, taken, finish, err)
    ensures taken == c.taken && finish == c.finish && err == c.err && after == before + c.packet
  {}

  /** Done so far, with what the run from here on still writes, is the whole run. */
  ghost predicate OnTheWay(whole: Run, done: seq<seq<byte>>, pid: u16, from: byte, key: bool, dts: u64, u: seq<byte>, p: nat) {
    && Media(pid) && p <= |u|
    && var rest := MuxRun(pid, (from + |done|) % 0x10, p == 0, key, dts, u, p);
    && whole == Run(done + rest.packets, rest.ok)
  }

  lemma OnTheWayStep(whole: Run, done: seq<seq<byte>>, pid: u16, from: byte, key: bool, dts: u64, u: seq<byte>, p: nat, c: Cut)
    requires OnTheWay(whole, done, pid, from, key, dts, u, p)
    requires c == CutAt(pid, p == 0, (from + |done|) % 0x10, key && p == 0, dts, u, p, |u| - p)
    ensures c.err ==> whole == Run(done + [c.packet], false)
    ensures !c.err && c.finish ==> whole == Run(done + [c.packet], true)
    ensures !c.err && !c.finish ==> OnTheWay(whole, done + [c.packet], pid, from, key, dts, u, p + c.taken)
  {
    hide CutAt, MuxRun;
    var counter := (from + |done|) % 0x10;
    RunStep(pid, counter, p == 0, key, dts, u, p);
    if !c.err && !c.finish {
      CounterAhead(from, |done|);
      Regroup(done, [c.packet], MuxRun(pid, (counter + 1) % 0x10, false, key, dts, u, p + c.taken).packets);
    }
  }

  lemma CounterAhead(from: byte, n: nat)
    ensures ((from + n) % 0x10 + 1) % 0x10 == (from + (n + 1)) % 0x10
  {}

  lemma BumpStep(counters: map<u16, byte>, pid: u16, n: nat, m: map<u16, byte>)
    requires m == if n == 0 then counters else counters[pid := (CounterOf(counters, pid) + n) % 0x10]
    requires CounterOf(counters, pid) < 0x10
    ensures CounterOf(m, pid) == (CounterOf(counters, pid) + n) % 0x10
    ensures Bump(m, pid) == counters[pid := (CounterOf(counters, pid) + n + 1) % 0x10]
  {}

  /** The source's loop over the packets of one unit. */
  method WriteUnit(pes: PES, pid: u16, key: bool, cc: Counters, writer: EasyWriter) returns (ok: bool)
    requires Media(pid) && pes.Valid() && pes.Position() == 0
    requires CounterOf(cc.next, pid) < 0x10
    modifies pes, cc, writer
    ensures pes.Source() == old(pes.Source())
    ensures
      var r := MuxRun(pid, CounterOf(old(cc.next), pid), true, key, old(pes.dts), old(pes.HeaderNow() + pes.data), 0);
      && ok == r.ok
      && writer.written == old(writer.written) + Flatten(r.packets)
      && cc.next == old(cc.next)[pid := (CounterOf(old(cc.next), pid) + |r.packets|) % 0x10]
  {
    hide Header, CutAt, MuxRun, Cuts, OnTheWay, Bump, CounterOf;
    ghost var u, dts, from := pes.HeaderNow() + pes.data, pes.dts, CounterOf(cc.next, pid);
    ghost var whole := MuxRun(pid, from, true, key, dts, u, 0);
    ghost var done: seq<seq<byte>> := [];
    ghost var w, counters := writer.written, cc.next;
    StartOfRun(pid, from, key, dts, u);
    var firstTS := true;
    while true
      invariant pes.Source() == old(pes.Source())
      invariant Reading(pes, u) && pes.Position() <= |u|
      invariant firstTS <==> pes.Position() == 0
      invariant writer.written == w + Flatten(done)
      invariant cc.next == if |done| == 0 then counters else counters[pid := (from + |done|) % 0x10]
      invariant OnTheWay(whole, done, pid, from, key, dts, u, pes.Position())
      decreases |u| - pes.Position()
    {
      ghost var p, m := pes.Position(), cc.next;
      BumpStep(counters, pid, |done|, m);
      var finish, muxErr := WritePacket(pes, pid, key, firstTS, cc, writer, u);
      ghost var c := CutAt(pid, p == 0, (from + |done|) % 0x10, key && p == 0, dts, u, p, |u| - p);
      OnTheWayStep(whole, done, pid, from, key, dts, u, p, c);
      CutsTaken(c, w + Flatten(done), writer.written, pes.Position() - p, finish, muxErr);
      FlattenOne(w, done, c.packet);
      done := done + [c.packet];
      if muxErr {
        return false;
      }
      firstTS := false;
      if finish {
        return true;
      }
    }
  }

  lemma StartOfRun(pid: u16, from: byte, key: bool, dts: u64, u: seq<byte>)
    requires Media(pid) && from < 0x10
    ensures OnTheWay(MuxRun(pid, from, true, key, dts, u, 0), [], pid, from, key, dts, u, 0)
  {
    hide MuxRun;
    var r := MuxRun(pid, from, true, key, dts, u, 0);
    assert [] + r.packets == r.packets;
  }

  lemma FlattenOne(w: seq<byte>, done: seq<seq<byte>>, packet: seq<byte>)
    ensures w + Flatten(done) + packet == w + Flatten(done + [packet])
  {
    FlattenAppend(done, [packet]);
    assert Flatten([packet]) == packet + Flatten([]);
  }
}
