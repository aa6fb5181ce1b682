/**
 A capture session's work on one monitor: configure its watchpoints from the two rotations,
 read out its FIFO, and go round again.
 */
module Capture {
  import opened Options
  import opened DtmRegisters
  import opened Rotation

  // ---------------------------------------------------------------- what a direction's watchpoints hold

  function First(s: seq<Bind>): Watchpoint
    requires |s| > 0 && s[0].Valid()
  {
    s[0].Gen(0)
  }

  /** The second slot: the sharer, the second format, the second group, or nothing. */
  function Second(s: seq<Bind>): Watchpoint
    requires |s| > 0 && AllValid(s)
  {
    assert s[0].Valid() && (|s| > 1 ==> s[1].Valid());
    if |s| > 1 then s[1].Gen(0)
    else if s[0].format2.Some? then s[0].Gen(0).(fmt := s[0].format2)
    else if |s[0].groups| > 1 then s[0].Gen(1)
    else OFF_WP
  }

  /** Which bind each slot of a direction captures for. */
  function SlotBinds(s: seq<Bind>): (Bind, Option<Bind>)
    requires |s| > 0
  {
    (s[0], if |s| > 1 then Some(s[1]) else if s[0].NGroups() > 1 then Some(s[0]) else None)
  }

  /** The two slots after a step; a direction without binds has both turned off. */
  function Slots(s: seq<Bind>): (Watchpoint, Watchpoint)
    requires AllValid(s)
  {
    if s == [] then (OFF_WP, OFF_WP) else (First(s), Second(s))
  }

  ghost predicate AllValid(s: seq<Bind>) {
    forall i :: 0 <= i < |s| ==> s[i].Valid()
  }

  ghost predicate StepValid(l: seq<Bind>, i: nat) {
    i < |l| && AllValid(Step(l, i))
  }

  lemma StepIsValid(l: seq<Bind>, i: nat)
    requires ValidList(l) && i < |l|
    ensures StepValid(l, i) && AllValid(Step(l, i))
    ensures var n := Next(|l|, i);
            && Step(l, i) == (if Share(l[i], l[n]) then [l[i], l[n]] else [l[i]])
            && After(l, i) == (if Share(l[i], l[n]) then Next(|l|, n) else n)
  {
  }

  /** What the next configuration of a rotation programs, and where it leaves the rotation. */
  function NextStep(l: seq<Bind>, i: nat): seq<Bind>
    requires l == [] || i < |l|
  {
    if l == [] then [] else Step(l, i)
  }

  function NextIndex(l: seq<Bind>, i: nat): nat
    requires l == [] || i < |l|
  {
    if l == [] then i else After(l, i)
  }

  function DirectionBinds(m: map<nat, Option<Bind>>, off: nat, s: seq<Bind>): map<nat, Option<Bind>> {
    if s == [] then m else m[off := Some(SlotBinds(s).0)][off + 1 := SlotBinds(s).1]
  }

  function DirectionRegs(p: Part, regs: map<nat, bv64>, off: nat, ctl: Option<bv64>, w: (Watchpoint, Watchpoint)): map<nat, bv64> {
    var r := if ctl.Some? then regs[CONTROL := ctl.value] else regs;
    WpRegs(p, WpRegs(p, r, off, w.0), off + 1, w.1)
  }

  /** Watchpoint registers hold this watchpoint. */
  ghost predicate Programmed(p: Part, regs: map<nat, bv64>, wp: nat, w: Watchpoint) {
    Reg(regs, WP0_CONFIG + 24 * wp) == Encode(p, w) &&
    (w.value.Some? ==> Reg(regs, WP0_VAL + 24 * wp) == w.value.value && Reg(regs, WP0_MASK + 24 * wp) == w.mask)
  }

  lemma ProgrammedNow(p: Part, regs: map<nat, bv64>, wp: nat, w: Watchpoint)
    ensures Programmed(p, WpRegs(p, regs, wp, w), wp, w)
  {
    hide Encode;
  }

  /** Nothing else moves a watchpoint's registers: neither another watchpoint nor a register elsewhere. */
  lemma ProgrammedStays(p: Part, regs: map<nat, bv64>, wp: nat, w: Watchpoint, v: nat, u: Watchpoint)
    requires v != wp && Programmed(p, regs, wp, w)
    ensures Programmed(p, WpRegs(p, regs, v, u), wp, w)
  {
    hide Encode;
  }

  lemma WpLeavesControl(p: Part, regs: map<nat, bv64>, wp: nat, w: Watchpoint)
    ensures Reg(WpRegs(p, regs, wp, w), CONTROL) == Reg(regs, CONTROL)
  {
    hide Encode;
  }

  lemma OtherRegisterStays(p: Part, regs: map<nat, bv64>, wp: nat, w: Watchpoint, off: nat, x: bv64)
    requires wp < 4 && Programmed(p, regs, wp, w)
    requires off == CONTROL || off == PMU_CONFIG || off == PMU_PMEVCNT
    ensures Programmed(p, regs[off := x], wp, w)
  {
    hide Encode;
  }

  /** The monitor's own event counters are off, and zero. */
  predicate CountersClear(regs: map<nat, bv64>) {
    Reg(regs, PMU_CONFIG) == 0 && Reg(regs, PMU_PMEVCNT) == 0
  }

  lemma ControlKeepsCounters(regs: map<nat, bv64>, x: bv64)
    ensures CountersClear(regs[CONTROL := x]) == CountersClear(regs)
  {
  }

  /** A direction's registers after it is configured, the other direction's watchpoints, and the control word. */
  lemma DirectionProgrammed(p: Part, regs: map<nat, bv64>, off: nat, ctl: Option<bv64>, w: (Watchpoint, Watchpoint))
    requires off == 0 || off == 2
    ensures var r := DirectionRegs(p, regs, off, ctl, w);
            && Programmed(p, r, off, w.0) && Programmed(p, r, off + 1, w.1)
            && Reg(r, CONTROL) == (if ctl.Some? then ctl.value else Reg(regs, CONTROL))
  {
    hide Encode, Programmed;
    var r := if ctl.Some? then regs[CONTROL := ctl.value] else regs;
    ProgrammedNow(p, r, off, w.0);
    ProgrammedStays(p, WpRegs(p, r, off, w.0), off, w.0, off + 1, w.1);
    ProgrammedNow(p, WpRegs(p, r, off, w.0), off + 1, w.1);
  }

  lemma OtherDirectionStays(p: Part, regs: map<nat, bv64>, off: nat, ctl: Option<bv64>, w: (Watchpoint, Watchpoint), wp: nat, u: Watchpoint)
    requires (off == 0 || off == 2) && wp < 4 && wp != off && wp != off + 1
    requires Programmed(p, regs, wp, u)
    ensures Programmed(p, DirectionRegs(p, regs, off, ctl, w), wp, u)
  {
    hide Encode, Programmed, WpRegs;
    if ctl.Some? {
      OtherRegisterStays(p, regs, wp, u, CONTROL, ctl.value);
    }
    var r := if ctl.Some? then regs[CONTROL := ctl.value] else regs;
    ProgrammedStays(p, r, wp, u, off, w.0);
    ProgrammedStays(p, WpRegs(p, r, off, w.0), wp, u, off + 1, w.1);
  }

  /** All four watchpoints of a monitor. */
  ghost predicate FourProgrammed(p: Part, regs: map<nat, bv64>, up: (Watchpoint, Watchpoint), dn: (Watchpoint, Watchpoint)) {
    Programmed(p, regs, 0, up.0) && Programmed(p, regs, 1, up.1) && Programmed(p, regs, 2, dn.0) && Programmed(p, regs, 3, dn.1)
  }

  lemma BothDirectionsProgrammed(p: Part, regs: map<nat, bv64>, ctl: Option<bv64>, rest: Option<bv64>,
                                 up: (Watchpoint, Watchpoint), dn: (Watchpoint, Watchpoint))
    ensures var r := DirectionRegs(p, DirectionRegs(p, regs, 0, ctl, up), 2, rest, dn);
            && FourProgrammed(p, r, up, dn)
            && Reg(r, CONTROL) == if rest.Some? then rest.value else if ctl.Some? then ctl.value else Reg(regs, CONTROL)
  {
    hide Programmed, DirectionRegs;
    var r := DirectionRegs(p, regs, 0, ctl, up);
    DirectionProgrammed(p, regs, 0, ctl, up);
    DirectionProgrammed(p, r, 2, rest, dn);
    OtherDirectionStays(p, r, 2, rest, dn, 0, up.0);
    OtherDirectionStays(p, r, 2, rest, dn, 1, up.1);
  }

  lemma FourProgrammedStays(p: Part, regs: map<nat, bv64>, up: (Watchpoint, Watchpoint), dn: (Watchpoint, Watchpoint), off: nat, x: bv64)
    requires FourProgrammed(p, regs, up, dn) && (off == CONTROL || off == PMU_CONFIG || off == PMU_PMEVCNT)
    ensures FourProgrammed(p, regs[off := x], up, dn)
  {
    hide Programmed;
    OtherRegisterStays(p, regs, 0, up.0, off, x);
    OtherRegisterStays(p, regs, 1, up.1, off, x);
    OtherRegisterStays(p, regs, 2, dn.0, off, x);
    OtherRegisterStays(p, regs, 3, dn.1, off, x);
  }

  // ---------------------------------------------------------------- order of writes

  predicate IsPlainControl(w: Write) {
    w.off == CONTROL && !w.readModify
  }

  /** A write that makes a watchpoint generate packets. */
  predicate Arms(p: Part, w: Write) {
    WP0_CONFIG <= w.off < WP0_CONFIG + 4 * 24 && (w.off - WP0_CONFIG) % 24 == 0 && GeneratesPackets(p, w.value)
  }

  /** Neither an outright control write nor one that empties the FIFO. */
  ghost predicate OnlyOrdinary(s: seq<Write>) {
    forall i :: 0 <= i < |s| ==> !IsPlainControl(s[i]) && s[i].off != FIFO_READY
  }

  /** How often the FIFO was emptied. */
  function FifoClears(s: seq<Write>): nat {
    if s == [] then 0 else FifoClears(s[..|s| - 1]) + if s[|s| - 1].off == FIFO_READY then 1 else 0
  }

  lemma {:induction false} OrdinaryClearsNothing(s: seq<Write>, t: seq<Write>)
    requires OnlyOrdinary(t)
    ensures FifoClears(s + t) == FifoClears(s)
  {
    if t == [] {
      assert s + t == s;
    } else {
      assert (s + t)[..|s + t| - 1] == s + t[..|t| - 1];
      OrdinaryClearsNothing(s, t[..|t| - 1]);
    }
  }

  lemma ConfiguringClearsNothing(p: Part, s: seq<Write>, t: seq<Write>)
    requires ControlFirst(p, t)
    ensures FifoClears(s + t) == FifoClears(s)
  {
    hide FifoClears, Arms, OnlyOrdinary;
    var k :| 0 <= k < |t| && IsPlainControl(t[k]) && !t[k].enabled && Quiet(p, t[..k]) && OnlyOrdinary(t[k + 1..]);
    var u := s + t[..k];
    OrdinaryClearsNothing(s, t[..k]);
    OtherIsNotCounted(u, t[k]);
    OrdinaryClearsNothing(u + [t[k]], t[k + 1..]);
    assert s + t == u + [t[k]] + t[k + 1..];
  }

  lemma OtherIsNotCounted(s: seq<Write>, w: Write)
    requires w.off != FIFO_READY
    ensures FifoClears(s + [w]) == FifoClears(s)
  {
    assert (s + [w])[..|s|] == s;
  }

  /** Disabling a monitor and turning its watchpoints off. */
  lemma OffClearsNothing(p: Part, before: seq<Write>, w: Write)
    requires w.off == CONTROL
    ensures var s, t := DirectionWrites(p, 0, None, (OFF_WP, OFF_WP)), DirectionWrites(p, 2, None, (OFF_WP, OFF_WP));
            FifoClears(before + [w] + s + t) == FifoClears(before)
  {
    var s, t := DirectionWrites(p, 0, None, (OFF_WP, OFF_WP)), DirectionWrites(p, 2, None, (OFF_WP, OFF_WP));
    DirectionWritesOrder(p, 0, None, (OFF_WP, OFF_WP));
    DirectionWritesOrder(p, 2, None, (OFF_WP, OFF_WP));
    hide *;
    OtherIsNotCounted(before, w);
    OrdinaryClearsNothing(before + [w], s);
    OrdinaryClearsNothing(before + [w] + s, t);
  }

  lemma ClearingIsCounted(s: seq<Write>, w: Write)
    requires w.off == FIFO_READY
    ensures FifoClears(s + [w]) == FifoClears(s) + 1
  {
    assert (s + [w])[..|s|] == s;
  }

  ghost predicate Quiet(p: Part, s: seq<Write>) {
    OnlyOrdinary(s) && forall i :: 0 <= i < |s| ==> !Arms(p, s[i])
  }

  /** The control register is written outright once, while disabled, before any watchpoint is armed. */
  ghost predicate ControlFirst(p: Part, s: seq<Write>) {
    exists k :: 0 <= k < |s| && IsPlainControl(s[k]) && !s[k].enabled &&
                Quiet(p, s[..k]) && OnlyOrdinary(s[k + 1..])
  }

  lemma WpWritesPlain(p: Part, wp: nat, w: Watchpoint)
    requires wp < 4
    ensures OnlyOrdinary(WpWrites(p, wp, w))
    ensures !GeneratesPackets(p, Encode(p, w)) ==> Quiet(p, WpWrites(p, wp, w))
  {
    hide Encode, GeneratesPackets;
  }

  lemma ResetsGenerateNothing(p: Part)
    ensures !GeneratesPackets(p, Encode(p, RESET_WP)) && !GeneratesPackets(p, Encode(p, OFF_WP))
  {
  }

  lemma JoinQuiet(p: Part, s: seq<Write>, t: seq<Write>)
    ensures Quiet(p, s) && Quiet(p, t) ==> Quiet(p, s + t)
    ensures OnlyOrdinary(s) && OnlyOrdinary(t) ==> OnlyOrdinary(s + t)
  {
    hide Arms;
  }

  lemma JoinControlFirst(p: Part, s: seq<Write>, t: seq<Write>)
    ensures Quiet(p, s) && ControlFirst(p, t) ==> ControlFirst(p, s + t)
    ensures ControlFirst(p, s) && OnlyOrdinary(t) ==> ControlFirst(p, s + t)
  {
    hide Quiet, OnlyOrdinary;
    if Quiet(p, s) && ControlFirst(p, t) {
      var k :| 0 <= k < |t| && IsPlainControl(t[k]) && !t[k].enabled && Quiet(p, t[..k]) && OnlyOrdinary(t[k + 1..]);
      JoinQuiet(p, s, t[..k]);
      assert (s + t)[..|s| + k] == s + t[..k];
      assert (s + t)[|s| + k + 1..] == t[k + 1..];
      assert (s + t)[|s| + k] == t[k];
    }
    if ControlFirst(p, s) && OnlyOrdinary(t) {
      var k :| 0 <= k < |s| && IsPlainControl(s[k]) && !s[k].enabled && Quiet(p, s[..k]) && OnlyOrdinary(s[k + 1..]);
      JoinQuiet(p, s[k + 1..], t);
      assert (s + t)[..k] == s[..k];
      assert (s + t)[k + 1..] == s[k + 1..] + t;
      assert (s + t)[k] == s[k];
    }
  }

  /** The writes that configure one direction, given the control word if it is still to be written. */
  ghost function DirectionWrites(p: Part, off: nat, ctl: Option<bv64>, w: (Watchpoint, Watchpoint)): seq<Write> {
    (if ctl.Some? then [Write(CONTROL, ctl.value, false, false)] else [])
    + WpWrites(p, off, w.0) + WpWrites(p, off + 1, w.1)
  }

  lemma DirectionWritesOrder(p: Part, off: nat, ctl: Option<bv64>, w: (Watchpoint, Watchpoint))
    requires off == 0 || off == 2
    ensures var s := DirectionWrites(p, off, ctl, w);
            && (ctl.Some? ==> ControlFirst(p, s))
            && (ctl.None? ==> OnlyOrdinary(s))
            && (ctl.None? && w == (OFF_WP, OFF_WP) ==> Quiet(p, s))
  {
    hide WpWrites, Encode, GeneratesPackets, Quiet, OnlyOrdinary;
    var a, b := WpWrites(p, off, w.0), WpWrites(p, off + 1, w.1);
    ResetsGenerateNothing(p);
    WpWritesPlain(p, off, w.0);
    WpWritesPlain(p, off + 1, w.1);
    JoinQuiet(p, a, b);
    if ctl.Some? {
      var c := Write(CONTROL, ctl.value, false, false);
      var s := [c] + a + b;
      assert s[0] == c && s[..0] == [] && s[1..] == a + b;
      EmptyIsQuiet(p);
    } else {
      assert [] + a + b == a + b;
    }
  }

  lemma EmptyIsQuiet(p: Part)
    ensures Quiet(p, []) && OnlyOrdinary([])
  {
  }

  // ---------------------------------------------------------------- one monitor of a session

  /** What a read-out collects: each ready entry below n once, by number, with the reset configuration and the bind on record. */
  ghost predicate IsReadout(p: Part, found: seq<Captured>, ready: set<nat>, record: map<nat, Option<Bind>>, n: nat) {
    && (forall i, j :: 0 <= i < j < |found| ==> found[i].entry < found[j].entry)
    && (forall e :: e in ready && e < n <==> exists i :: 0 <= i < |found| && found[i].entry == e)
    && (forall i :: 0 <= i < |found| ==>
          found[i].entry in record &&
          found[i] == Captured(found[i].entry, Decode(p, Encode(p, RESET_WP)), record[found[i].entry]))
  }

  lemma ReadoutSkips(p: Part, found: seq<Captured>, ready: set<nat>, record: map<nat, Option<Bind>>, n: nat)
    requires IsReadout(p, found, ready, record, n) && n !in ready
    ensures IsReadout(p, found, ready, record, n + 1)
  {
    hide Encode, Decode;
  }

  lemma ReadoutAdds(p: Part, found: seq<Captured>, ready: set<nat>, record: map<nat, Option<Bind>>, n: nat)
    requires IsReadout(p, found, ready, record, n) && n in ready && n in record
    ensures IsReadout(p, found + [Captured(n, Decode(p, Encode(p, RESET_WP)), record[n])], ready, record, n + 1)
  {
    hide Encode, Decode;
    var more := found + [Captured(n, Decode(p, Encode(p, RESET_WP)), record[n])];
    forall i | 0 <= i < |found|
      ensures found[i].entry in ready && found[i].entry < n
    {
    }
    forall e | e in ready && e < n + 1
      ensures exists i :: 0 <= i < |more| && more[i].entry == e
    {
      if e == n {
        assert more[|found|].entry == e;
      } else {
        var i :| 0 <= i < |found| && found[i].entry == e;
        assert more[i].entry == e;
      }
    }
  }

  lemma ReadoutHas(p: Part, found: seq<Captured>, ready: set<nat>, record: map<nat, Option<Bind>>, n: nat, e: nat)
    requires IsReadout(p, found, ready, record, n) && e in ready && e < n
    ensures e in record
  {
    hide Encode, Decode;
    var i :| 0 <= i < |found| && found[i].entry == e;
  }

  lemma EmptyReadout(p: Part, ready: set<nat>, record: map<nat, Option<Bind>>)
    ensures IsReadout(p, [], ready, record, 0)
  {
    hide Encode, Decode;
  }

  lemma ResetClearsNothing(p: Part, before: seq<Write>, after: seq<Write>)
    requires before <= after && Quiet(p, after[|before|..])
    ensures FifoClears(after) == FifoClears(before)
  {
    hide Arms, FifoClears;
    assert after == before + after[|before|..];
    OrdinaryClearsNothing(before, after[|before|..]);
  }

  /** So there are as many as ready entries. */
  lemma ReadoutCounts(p: Part, found: seq<Captured>, ready: set<nat>, record: map<nat, Option<Bind>>)
    requires IsReadout(p, found, ready, record, 4)
    ensures |found| == |set e | e in ready && e < 4|
  {
    hide Encode, Decode;
    var entries := set e | e in ready && e < 4;
    AscendingCounts(found);
    assert entries == set i | 0 <= i < |found| :: found[i].entry;
  }

  lemma {:induction false} AscendingCounts(found: seq<Captured>)
    requires forall i, j :: 0 <= i < j < |found| ==> found[i].entry < found[j].entry
    ensures |set i | 0 <= i < |found| :: found[i].entry| == |found|
  {
    var entries := set i | 0 <= i < |found| :: found[i].entry;
    if found == [] {
      assert entries == {};
    } else {
      var n := |found| - 1;
      var before := set i | 0 <= i < n :: found[..n][i].entry;
      AscendingCounts(found[..n]);
      assert entries == before + {found[n].entry};
    }
  }

  /** A FIFO entry as it is handed to the decoder: its configuration and the bind on record for it. */
  datatype Captured = Captured(entry: nat, config: Config, bind: Option<Bind>)

  lemma ConfigOf(p: Part, regs: map<nat, bv64>, wp: nat, w: Watchpoint)
    requires Programmed(p, regs, wp, w)
    ensures Reg(regs, WP0_CONFIG + 24 * wp) == Encode(p, w)
  {
  }

  /**
   What the decoder is told about an entry (channel, port and packet format) is what the
   watchpoint captured exactly for full-header captures of REQ flits at port 0.
   */
  lemma DecodedAsCapturedIff(p: Part, w: Watchpoint)
    requires Encodable(p, w)
    ensures var told := Decode(p, Encode(p, RESET_WP));
            var captured := Decode(p, Encode(p, w));
            (told.chn, told.dev, told.fmt) == (captured.chn, captured.dev, captured.fmt)
            <==> OrNone(w.chn) == 0 && OrNone(w.dev) == 0 && OrNone(w.fmt) == 4
  {
    hide Encode, Decode;
    DecodeEncode(p, w);
    DecodeEncode(p, RESET_WP);
  }

  /** A slot captures flits that match a group of a bind, at the bind's port and channel, in a format. */
  predicate Captures(p: Part, regs: map<nat, bv64>, wp: nat, b: Bind, n: nat, format: bv64)
    requires n < |b.groups|
  {
    var c := Decode(p, Reg(regs, WP0_CONFIG + 24 * wp));
    && c.pktGen && c.dev == b.port && c.chn == b.chn && c.fmt == format && c.grp == b.groups[n].grp
    && c.cc == b.cc && c.ctrig == b.ctrig && c.dbgtrig == b.dbgtrig && c.exclusive == b.groups[n].exclusive
    && (c.combine <==> |b.groups| == 2 && n == 0)
    && Reg(regs, WP0_VAL + 24 * wp) == b.groups[n].val && Reg(regs, WP0_MASK + 24 * wp) == b.groups[n].mask
  }

  lemma ProgrammedCaptures(p: Part, regs: map<nat, bv64>, wp: nat, b: Bind, n: nat, format: bv64)
    requires b.Valid() && n < |b.groups| && Encodable(p, b.Gen(n).(fmt := Some(format)))
    requires Programmed(p, regs, wp, b.Gen(n).(fmt := Some(format)))
    ensures Captures(p, regs, wp, b, n, format)
  {
    hide Decode, Encode, Encodable;
    DecodeEncode(p, b.Gen(n).(fmt := Some(format)));
  }

  lemma OffCapturesNothing(p: Part, regs: map<nat, bv64>, wp: nat)
    requires Programmed(p, regs, wp, OFF_WP)
    ensures !GeneratesPackets(p, Reg(regs, WP0_CONFIG + 24 * wp))
  {
  }

  /**
   Read back from the registers, a direction captures for the binds of its step: the first by
   its format and first group, and in the odd slot the sharing bind, the second format, the
   second group that the even slot combines with, or nothing.
   */
  lemma SlotsCapture(p: Part, regs: map<nat, bv64>, off: nat, s: seq<Bind>)
    requires 1 <= |s| <= 2 && AllValid(s) && Encodable(p, First(s)) && Encodable(p, Second(s))
    requires Programmed(p, regs, off, Slots(s).0) && Programmed(p, regs, off + 1, Slots(s).1)
    ensures s[0].Valid() && (|s| == 2 ==> s[1].Valid())
    ensures Captures(p, regs, off, s[0], 0, s[0].format)
    ensures |s| == 2 ==> Captures(p, regs, off + 1, s[1], 0, s[1].format)
    ensures |s| == 1 && |s[0].groups| == 2 ==> Captures(p, regs, off + 1, s[0], 1, s[0].format)
    ensures |s| == 1 && |s[0].groups| == 1 && s[0].format2.Some? ==> Captures(p, regs, off + 1, s[0], 0, s[0].format2.value)
    ensures |s| == 1 && s[0].NGroups() == 1 ==> !GeneratesPackets(p, Reg(regs, WP0_CONFIG + 24 * (off + 1)))
  {
    hide Programmed, Encodable, Captures, GeneratesPackets;
    var b := s[0];
    assert b.Valid() && (|s| == 2 ==> s[1].Valid());
    ProgrammedCaptures(p, regs, off, b, 0, b.format);
    if |s| == 2 {
      ProgrammedCaptures(p, regs, off + 1, s[1], 0, s[1].format);
    } else if b.format2.Some? {
      ProgrammedCaptures(p, regs, off + 1, b, 0, b.format2.value);
    } else if |b.groups| == 2 {
      ProgrammedCaptures(p, regs, off + 1, b, 1, b.format);
    } else {
      OffCapturesNothing(p, regs, off + 1);
    }
  }

  /** A slot generates packets exactly if there is a bind on record for it, and then at that bind's port and channel. */
  predicate RecordedSlot(p: Part, regs: map<nat, bv64>, e: nat, record: map<nat, Option<Bind>>) {
    && e in record
    && (record[e].Some? <==> GeneratesPackets(p, Reg(regs, WP0_CONFIG + 24 * e)))
    && (record[e].Some? ==>
          var c := Decode(p, Reg(regs, WP0_CONFIG + 24 * e));
          c.dev == record[e].value.port && c.chn == record[e].value.chn)
  }

  lemma CapturesMeans(p: Part, regs: map<nat, bv64>, wp: nat, b: Bind, n: nat, format: bv64)
    requires n < |b.groups| && Captures(p, regs, wp, b, n, format)
    ensures GeneratesPackets(p, Reg(regs, WP0_CONFIG + 24 * wp))
    ensures var c := Decode(p, Reg(regs, WP0_CONFIG + 24 * wp)); c.dev == b.port && c.chn == b.chn
  {
  }

  lemma RecordIs(m: map<nat, Option<Bind>>, off: nat, s: seq<Bind>)
    requires 1 <= |s| <= 2 && AllValid(s)
    ensures var record := DirectionBinds(m, off, s);
            && off in record && off + 1 in record && record[off] == Some(s[0])
            && record[off + 1] == if |s| == 2 then Some(s[1]) else if s[0].NGroups() == 2 then Some(s[0]) else None
  {
    assert s[0].Valid();
  }

  /** The record that a configuration leaves tells of each slot what it captures for. */
  lemma RecordTellsSlots(p: Part, regs: map<nat, bv64>, off: nat, s: seq<Bind>, m: map<nat, Option<Bind>>)
    requires 1 <= |s| <= 2 && AllValid(s) && Encodable(p, First(s)) && Encodable(p, Second(s))
    requires Programmed(p, regs, off, Slots(s).0) && Programmed(p, regs, off + 1, Slots(s).1)
    ensures var record := DirectionBinds(m, off, s);
            RecordedSlot(p, regs, off, record) && RecordedSlot(p, regs, off + 1, record)
  {
    SlotsCapture(p, regs, off, s);
    RecordIs(m, off, s);
    hide Programmed, Encodable, Captures, GeneratesPackets, Decode, First, Second, Slots, DirectionBinds;
    CapturesMeans(p, regs, off, s[0], 0, s[0].format);
    if |s| == 2 {
      CapturesMeans(p, regs, off + 1, s[1], 0, s[1].format);
    } else if |s[0].groups| == 2 {
      CapturesMeans(p, regs, off + 1, s[0], 1, s[0].format);
    } else if s[0].format2.Some? {
      CapturesMeans(p, regs, off + 1, s[0], 0, s[0].format2.value);
    }
  }

  /** Disable, then reset all four watchpoints.  Good from any state, whatever is cached. */
  method ResetDtm(dtm: Dtm)
    requires NoUnsafeWrite(dtm.log)
    modifies dtm`regs, dtm`log, dtm`cachedEnable
    ensures dtm.Disabled()
    ensures forall wp :: 0 <= wp < 4 ==> Programmed(dtm.part, dtm.regs, wp, RESET_WP)
    ensures Reg(dtm.regs, CONTROL) == ClearMask(Reg(old(dtm.regs), CONTROL), DTM_ENABLE)
    ensures old(dtm.log) <= dtm.log && Quiet(dtm.part, dtm.log[|old(dtm.log)|..])
  {
    hide Encode, Quiet, OnlyOrdinary, WpWrites, WpRegs, Programmed;
    dtm.Disable();
    ghost var n := |old(dtm.log)|;
    assert dtm.log[n..] == [Write(CONTROL, Reg(dtm.regs, CONTROL), true, old(dtm.Enabled()))];
    OneReadModifyIsQuiet(dtm.part, dtm.log[n..]);
    ResetsGenerateNothing(dtm.part);
    for wp := 0 to 4
      invariant dtm.Disabled()
      invariant forall v :: 0 <= v < wp ==> Programmed(dtm.part, dtm.regs, v, RESET_WP)
      invariant Reg(dtm.regs, CONTROL) == ClearMask(Reg(old(dtm.regs), CONTROL), DTM_ENABLE)
      invariant old(dtm.log) <= dtm.log && Quiet(dtm.part, dtm.log[n..])
    {
      ghost var before, regsBefore := dtm.log, dtm.regs;
      dtm.WpSet(wp, RESET_WP);
      WpWritesPlain(dtm.part, wp, RESET_WP);
      assert dtm.log[n..] == before[n..] + WpWrites(dtm.part, wp, RESET_WP);
      JoinQuiet(dtm.part, before[n..], WpWrites(dtm.part, wp, RESET_WP));
      ProgrammedNow(dtm.part, regsBefore, wp, RESET_WP);
      WpLeavesControl(dtm.part, regsBefore, wp, RESET_WP);
      forall v | 0 <= v < wp
        ensures Programmed(dtm.part, dtm.regs, v, RESET_WP)
      {
        ProgrammedStays(dtm.part, regsBefore, v, RESET_WP, wp, RESET_WP);
      }
    }
  }

  class CaptureDtm {
    const dtm: Dtm
    const up: WatchRotation
    const dn: WatchRotation
    var currentWb: map<nat, Option<Bind>>

    ghost predicate Valid()
      reads this, dtm, up, dn
    {
      up != dn && up.Valid() && dn.Valid()
    }

    constructor (dtm: Dtm, up: WatchRotation, dn: WatchRotation)
      requires up != dn && up.Valid() && dn.Valid()
      ensures this.dtm == dtm && this.up == up && this.dn == dn && currentWb == map[] && Valid()
    {
      this.dtm, this.up, this.dn, currentWb := dtm, up, dn, map[];
    }

    /** Make both watchpoints of a direction without binds generate nothing. */
    method TurnOff(off: nat)
      requires dtm.Disabled() && (off == 0 || off == 2)
      modifies dtm`regs, dtm`log
      ensures dtm.Disabled()
      ensures dtm.regs == DirectionRegs(dtm.part, old(dtm.regs), off, None, (OFF_WP, OFF_WP))
      ensures dtm.log == old(dtm.log) + DirectionWrites(dtm.part, off, None, (OFF_WP, OFF_WP))
    {
      hide Encode, WpWrites, WpRegs;
      for wp := off to off + 2
        invariant dtm.Disabled()
        invariant dtm.regs == if wp == off then old(dtm.regs)
                              else if wp == off + 1 then WpRegs(dtm.part, old(dtm.regs), off, OFF_WP)
                              else DirectionRegs(dtm.part, old(dtm.regs), off, None, (OFF_WP, OFF_WP))
        invariant dtm.log == if wp == off then old(dtm.log)
                             else if wp == off + 1 then old(dtm.log) + WpWrites(dtm.part, off, OFF_WP)
                             else old(dtm.log) + DirectionWrites(dtm.part, off, None, (OFF_WP, OFF_WP))
      {
        dtm.WpSet(wp, OFF_WP);
      }
    }

    /** After the first slot took bind wb: fill the second one from the same bind or by sharing. */
    method ConfigureSecond(rot: WatchRotation, off: nat, wb: Bind)
      requires dtm.Disabled() && rot.Valid() && (off == 0 || off == 2)
      requires !rot.IsEmpty() && wb.Valid()
      modifies dtm`regs, dtm`log, rot`index, this`currentWb
      ensures dtm.Disabled() && rot.Valid()
      ensures var nwb := rot.bindList[old(rot.index)];
              var s := if Share(wb, nwb) then [wb, nwb] else [wb];
              && AllValid(s)
              && rot.index == (if Share(wb, nwb) then Next(|rot.bindList|, old(rot.index)) else old(rot.index))
              && dtm.regs == WpRegs(dtm.part, old(dtm.regs), off + 1, Second(s))
              && dtm.log == old(dtm.log) + WpWrites(dtm.part, off + 1, Second(s))
              && currentWb == old(currentWb)[off + 1 := SlotBinds(s).1]
    {
      hide Encode, WpWrites, WpRegs;
      if wb.format2.Some? {
        dtm.WpSet(off + 1, wb.Gen(0).(fmt := wb.format2));
        currentWb := currentWb[off + 1 := Some(wb)];
      } else if |wb.groups| > 1 {
        dtm.WpSet(off + 1, wb.Gen(1));
        currentWb := currentWb[off + 1 := Some(wb)];
      } else {
        var nwb := rot.Current().value;
        if nwb != wb && nwb.CanShare() && nwb.tag == wb.tag {
          rot.Advance();
          dtm.WpSet(off + 1, nwb.Gen(0));
          currentWb := currentWb[off + 1 := Some(nwb)];
        } else {
          dtm.WpSet(off + 1, OFF_WP);
          currentWb := currentWb[off + 1 := None];
        }
      }
    }

    /** Take the rotation's next bind, write the control word if that is still to be done, and fill the first slot. */
    method ConfigureFirst(rot: WatchRotation, off: nat, isUp: bool, ctl: Option<bv64>) returns (wb: Bind)
      requires dtm.Disabled() && rot.Valid() && !rot.IsEmpty() && (off == 0 || off == 2)
      requires ctl.Some? ==> !EnableBit(ctl.value)
      modifies dtm`regs, dtm`log, rot`index, this`currentWb
      ensures dtm.Disabled() && rot.Valid()
      ensures wb == rot.bindList[old(rot.index)] && wb.Valid()
      ensures rot.index == Next(|rot.bindList|, old(rot.index))
      ensures var word := ControlWord([wb], isUp, ctl);
              dtm.regs == WpRegs(dtm.part, if word.Some? then old(dtm.regs)[CONTROL := word.value] else old(dtm.regs), off, wb.Gen(0))
      ensures var word := ControlWord([wb], isUp, ctl);
              dtm.log == old(dtm.log) + (if word.Some? then [Write(CONTROL, word.value, false, false)] else [])
                       + WpWrites(dtm.part, off, wb.Gen(0))
      ensures currentWb == old(currentWb)[off := Some(wb)]
    {
      hide Encode, WpWrites, WpRegs;
      wb := rot.Current().value;
      rot.Advance();
      if ctl.Some? {
        var word := if wb.tag && isUp then SetMask(ctl.value, TRACE_TAG_ENABLE) else ctl.value;
        MasksAndEnable(ctl.value);
        dtm.Write64(CONTROL, word, false);
      }
      dtm.WpSet(off, wb.Gen(0));
      currentWb := currentWb[off := Some(wb)];
    }

    /** Program a direction that has binds, from its rotation's current position. */
    method ConfigureBinds(rot: WatchRotation, off: nat, isUp: bool, ctl: Option<bv64>)
      requires dtm.Disabled() && rot.Valid() && !rot.IsEmpty() && (off == 0 || off == 2)
      requires ctl.Some? ==> !EnableBit(ctl.value)
      modifies dtm`regs, dtm`log, rot`index, this`currentWb
      ensures dtm.Disabled() && rot.Valid()
      ensures rot.index == After(rot.bindList, old(rot.index))
      ensures StepValid(rot.bindList, old(rot.index))
      ensures dtm.regs == DirectionRegs(dtm.part, old(dtm.regs), off, ControlWord(Step(rot.bindList, old(rot.index)), isUp, ctl),
                                        Slots(Step(rot.bindList, old(rot.index))))
      ensures dtm.log == old(dtm.log) + DirectionWrites(dtm.part, off, ControlWord(Step(rot.bindList, old(rot.index)), isUp, ctl),
                                                        Slots(Step(rot.bindList, old(rot.index))))
      ensures currentWb == DirectionBinds(old(currentWb), off, Step(rot.bindList, old(rot.index)))
    {
      hide Encode, WpWrites, WpRegs, Second, Share, Step, After, ValidList, AllValid, StepValid;
      StepIsValid(rot.bindList, rot.index);
      var wb := ConfigureFirst(rot, off, isUp, ctl);
      ghost var first := dtm.log;
      ConfigureSecond(rot, off, wb);
      ghost var word := ControlWord([wb], isUp, ctl);
      Regroup(old(dtm.log), if word.Some? then [Write(CONTROL, word.value, false, false)] else [],
              WpWrites(dtm.part, off, wb.Gen(0)), dtm.log[|first|..]);
    }

    /** Program one direction's two watchpoints; `ctl` is the control word while it is still to be written. */
    method ConfigureDirection(rot: WatchRotation, off: nat, isUp: bool, ctl: Option<bv64>) returns (rest: Option<bv64>)
      requires dtm.Disabled() && rot.Valid() && (off == 0 || off == 2)
      requires ctl.Some? ==> !EnableBit(ctl.value)
      modifies dtm`regs, dtm`log, rot`index, this`currentWb
      ensures dtm.Disabled() && rot.Valid()
      ensures rest == if rot.IsEmpty() then ctl else None
      ensures rot.index == NextIndex(rot.bindList, old(rot.index))
      ensures AllValid(NextStep(rot.bindList, old(rot.index)))
      ensures dtm.regs == DirectionRegs(dtm.part, old(dtm.regs), off, ControlWord(NextStep(rot.bindList, old(rot.index)), isUp, ctl),
                                        Slots(NextStep(rot.bindList, old(rot.index))))
      ensures dtm.log == old(dtm.log) + DirectionWrites(dtm.part, off, ControlWord(NextStep(rot.bindList, old(rot.index)), isUp, ctl),
                                                        Slots(NextStep(rot.bindList, old(rot.index))))
      ensures currentWb == DirectionBinds(old(currentWb), off, NextStep(rot.bindList, old(rot.index)))
    {
      hide DirectionRegs, DirectionWrites, Step, First, Second, ValidList;
      if rot.IsEmpty() {
        TurnOff(off);
        return ctl;
      }
      ConfigureBinds(rot, off, isUp, ctl);
      return None;
    }

    /** The last steps: trace to the FIFO, counters if wanted, enable.  No outright control write among them. */
    method Finish(atb: bool, count: bool, ghost up: (Watchpoint, Watchpoint), ghost dn: (Watchpoint, Watchpoint))
      returns (ghost tail: seq<Write>)
      requires dtm.Disabled() && FourProgrammed(dtm.part, dtm.regs, up, dn)
      modifies dtm`regs, dtm`log, dtm`cachedEnable
      ensures dtm.Good() && dtm.cachedEnable == Some(true)
      ensures FourProgrammed(dtm.part, dtm.regs, up, dn)
      ensures Reg(dtm.regs, CONTROL) == FinishedControl(Reg(old(dtm.regs), CONTROL), atb) && (count ==> CountersClear(dtm.regs))
      ensures dtm.log == old(dtm.log) + tail && OnlyOrdinary(tail)
    {
      hide FourProgrammed, NoUnsafeWrite, SetMask, EnableBit, CountersClear, OnlyOrdinary;
      ghost var noAtb: seq<Write> := [];
      EmptyIsQuiet(dtm.part);
      if !atb {
        noAtb := SetNoAtb(up, dn);
      }
      ghost var rest := CountAndEnable(count, up, dn);
      JoinQuiet(dtm.part, noAtb, rest);
      tail := noAtb + rest;
    }

    method CountAndEnable(count: bool, ghost up: (Watchpoint, Watchpoint), ghost dn: (Watchpoint, Watchpoint))
      returns (ghost tail: seq<Write>)
      requires dtm.Disabled() && FourProgrammed(dtm.part, dtm.regs, up, dn)
      modifies dtm`regs, dtm`log, dtm`cachedEnable
      ensures dtm.Good() && dtm.cachedEnable == Some(true)
      ensures FourProgrammed(dtm.part, dtm.regs, up, dn)
      ensures Reg(dtm.regs, CONTROL) == SetMask(Reg(old(dtm.regs), CONTROL), DTM_ENABLE) && (count ==> CountersClear(dtm.regs))
      ensures dtm.log == old(dtm.log) + tail && OnlyOrdinary(tail)
    {
      hide FourProgrammed, NoUnsafeWrite, SetMask, EnableBit, CountersClear, OnlyOrdinary;
      ghost var counting: seq<Write> := [];
      EmptyIsQuiet(dtm.part);
      if count {
        counting := ClearCounters(up, dn);
      }
      ControlKeepsCounters(dtm.regs, SetMask(Reg(dtm.regs, CONTROL), DTM_ENABLE));
      FourProgrammedStays(dtm.part, dtm.regs, up, dn, CONTROL, SetMask(Reg(dtm.regs, CONTROL), DTM_ENABLE));
      dtm.Enable();
      ghost var enabling := [Write(CONTROL, Reg(dtm.regs, CONTROL), true, false)];
      OneReadModifyIsQuiet(dtm.part, enabling);
      JoinQuiet(dtm.part, counting, enabling);
      tail := counting + enabling;
    }

    method SetNoAtb(ghost up: (Watchpoint, Watchpoint), ghost dn: (Watchpoint, Watchpoint)) returns (ghost tail: seq<Write>)
      requires dtm.Disabled() && FourProgrammed(dtm.part, dtm.regs, up, dn)
      modifies dtm`regs, dtm`log
      ensures dtm.Disabled() && FourProgrammed(dtm.part, dtm.regs, up, dn)
      ensures Reg(dtm.regs, CONTROL) == SetMask(Reg(old(dtm.regs), CONTROL), TRACE_NO_ATB)
      ensures dtm.log == old(dtm.log) + tail && OnlyOrdinary(tail)
    {
      hide FourProgrammed, NoUnsafeWrite, SetMask, EnableBit;
      MasksAndEnable(Reg(dtm.regs, CONTROL));
      FourProgrammedStays(dtm.part, dtm.regs, up, dn, CONTROL, SetMask(Reg(dtm.regs, CONTROL), TRACE_NO_ATB));
      tail := [Write(CONTROL, SetMask(Reg(dtm.regs, CONTROL), TRACE_NO_ATB), true, false)];
      dtm.SetBits(CONTROL, TRACE_NO_ATB);
    }

    method ClearCounters(ghost up: (Watchpoint, Watchpoint), ghost dn: (Watchpoint, Watchpoint)) returns (ghost tail: seq<Write>)
      requires dtm.Disabled() && FourProgrammed(dtm.part, dtm.regs, up, dn)
      modifies dtm`regs, dtm`log
      ensures dtm.Disabled() && FourProgrammed(dtm.part, dtm.regs, up, dn)
      ensures Reg(dtm.regs, CONTROL) == Reg(old(dtm.regs), CONTROL) && CountersClear(dtm.regs)
      ensures dtm.log == old(dtm.log) + tail && OnlyOrdinary(tail)
    {
      hide FourProgrammed, NoUnsafeWrite, SetMask, EnableBit;
      FourProgrammedStays(dtm.part, dtm.regs, up, dn, PMU_CONFIG, 0);
      dtm.Write64(PMU_CONFIG, 0, false);
      FourProgrammedStays(dtm.part, dtm.regs, up, dn, PMU_PMEVCNT, 0);
      dtm.Write64(PMU_PMEVCNT, 0, false);
      tail := [Write(PMU_CONFIG, 0, false, false), Write(PMU_PMEVCNT, 0, false, false)];
    }

    /** Disabled, and all watchpoints reset: nothing was armed on the way. */
    method Prepare() returns (ghost quiet: seq<Write>)
      requires NoUnsafeWrite(dtm.log)
      modifies dtm`regs, dtm`log, dtm`cachedEnable
      ensures dtm.Disabled()
      ensures dtm.log == old(dtm.log) + quiet && Quiet(dtm.part, quiet)
    {
      hide Quiet, Programmed;
      dtm.Disable();
      ghost var before := dtm.log;
      ghost var disabling := before[|old(dtm.log)|..];
      OneReadModifyIsQuiet(dtm.part, disabling);
      ResetDtm(dtm);
      quiet := disabling + dtm.log[|before|..];
      JoinQuiet(dtm.part, disabling, dtm.log[|before|..]);
    }

    /**
     Program the monitor from the current positions of its rotations.  Works from any state of
     the hardware and leaves a record of the binds in use.
     */
    method ConfigureDtm(atb: bool, count: bool)
      requires Valid() && NoUnsafeWrite(dtm.log)
      modifies dtm`regs, dtm`log, dtm`cachedEnable, up`index, dn`index, this`currentWb
      ensures Valid() && dtm.Good()
      ensures up.index == NextIndex(up.bindList, old(up.index)) && dn.index == NextIndex(dn.bindList, old(dn.index))
      ensures AllValid(NextStep(up.bindList, old(up.index))) && AllValid(NextStep(dn.bindList, old(dn.index)))
      ensures FourProgrammed(dtm.part, dtm.regs, Slots(NextStep(up.bindList, old(up.index))), Slots(NextStep(dn.bindList, old(dn.index))))
      ensures old(dtm.log) <= dtm.log
      ensures dtm.cachedEnable == Some(!(up.IsEmpty() && dn.IsEmpty()))
      ensures !(up.IsEmpty() && dn.IsEmpty()) ==> ControlFirst(dtm.part, dtm.log[|old(dtm.log)|..])
      ensures !(up.IsEmpty() && dn.IsEmpty()) ==>
                Reg(dtm.regs, CONTROL) == SessionControl(atb, NextStep(up.bindList, old(up.index)))
      ensures !(up.IsEmpty() && dn.IsEmpty()) && count ==> CountersClear(dtm.regs)
      ensures FifoClears(dtm.log) == FifoClears(old(dtm.log))
      ensures !(up.IsEmpty() && dn.IsEmpty()) ==>
                currentWb == DirectionBinds(DirectionBinds(map[], 0, NextStep(up.bindList, old(up.index))),
                                            2, NextStep(dn.bindList, old(dn.index)))
    {
      hide DirectionRegs, DirectionWrites, FourProgrammed, Quiet, OnlyOrdinary, ControlFirst, Slots, NextStep, NextIndex,
           DirectionBinds, ValidList, AllValid, Programmed, Encode, NoUnsafeWrite, SetMask, EnableBit,
           SessionControl, FinishedControl, FirstControl, FifoClears;
      ghost var n := |dtm.log|;
      ghost var us, ds := NextStep(up.bindList, up.index), NextStep(dn.bindList, dn.index);
      EmptySteps(up.bindList, up.index);
      EmptySteps(dn.bindList, dn.index);
      if up.IsEmpty() && dn.IsEmpty() {
        OffClearsNothing(dtm.part, dtm.log, Write(CONTROL, ClearMask(Reg(dtm.regs, CONTROL), DTM_ENABLE), true, dtm.Enabled()));
        dtm.Disable();
        BothDirectionsProgrammed(dtm.part, dtm.regs, None, None, (OFF_WP, OFF_WP), (OFF_WP, OFF_WP));
        TurnOff(0);
        TurnOff(2);
        return;
      }
      ghost var writes := ConfigureBoth(atb);
      ghost var tail := Finish(atb, count, Slots(us), Slots(ds));
      assert dtm.log[n..] == writes + tail;
      JoinControlFirst(dtm.part, writes, tail);
      ConfiguringClearsNothing(dtm.part, old(dtm.log), writes + tail);
      assert dtm.log == old(dtm.log) + (writes + tail);
      FinalControl(atb, us);
    }

    /** Disable, reset, and program both directions, of which at least one has binds. */
    method ConfigureBoth(atb: bool) returns (ghost writes: seq<Write>)
      requires Valid() && NoUnsafeWrite(dtm.log) && !(up.IsEmpty() && dn.IsEmpty())
      modifies dtm`regs, dtm`log, dtm`cachedEnable, up`index, dn`index, this`currentWb
      ensures Valid() && dtm.Disabled()
      ensures up.index == NextIndex(up.bindList, old(up.index)) && dn.index == NextIndex(dn.bindList, old(dn.index))
      ensures FourProgrammed(dtm.part, dtm.regs, Slots(NextStep(up.bindList, old(up.index))), Slots(NextStep(dn.bindList, old(dn.index))))
      ensures Reg(dtm.regs, CONTROL) == FirstControl(atb, NextStep(up.bindList, old(up.index)))
      ensures currentWb == DirectionBinds(DirectionBinds(map[], 0, NextStep(up.bindList, old(up.index))),
                                          2, NextStep(dn.bindList, old(dn.index)))
      ensures dtm.log == old(dtm.log) + writes && ControlFirst(dtm.part, writes)
    {
      hide DirectionRegs, DirectionWrites, FourProgrammed, Quiet, OnlyOrdinary, ControlFirst, Slots, NextStep, NextIndex,
           DirectionBinds, ValidList, AllValid, Programmed, Encode, NoUnsafeWrite, SetMask, EnableBit;
      ghost var us, ds := NextStep(up.bindList, up.index), NextStep(dn.bindList, dn.index);
      EmptySteps(up.bindList, up.index);
      EmptySteps(dn.bindList, dn.index);
      currentWb := map[];
      ghost var quiet := Prepare();
      ghost var regs := dtm.regs;
      var control := if atb then 0 else TRACE_NO_ATB;
      MasksAndEnable(0);
      var rest := ConfigureDirection(up, 0, true, Some(control));
      ghost var w0 := DirectionWrites(dtm.part, 0, ControlWord(us, true, Some(control)), Slots(us));
      ghost var written := ConfigureDirection(dn, 2, false, rest);
      ghost var w1 := DirectionWrites(dtm.part, 2, ControlWord(ds, false, rest), Slots(ds));
      DirectionsOrder(dtm.part, quiet, us, ds, control, rest);
      BothDirectionsProgrammed(dtm.part, regs, ControlWord(us, true, Some(control)), ControlWord(ds, false, rest), Slots(us), Slots(ds));
      writes := quiet + w0 + w1;
    }

    /**
     Collect what the FIFO holds.  The watchpoints are reset first, so what is read back as an
     entry's configuration is the reset one; the bind comes from the record of the last configuration.
     An entry of a direction without binds has no record: the look-up fails.
     */
    method TraceReadout(ready: set<nat>, clear: bool) returns (r: Result<seq<Captured>, nat>)
      requires Valid() && NoUnsafeWrite(dtm.log)
      modifies dtm`regs, dtm`log, dtm`cachedEnable
      ensures Valid() && dtm.Good()
      ensures r.Ok? <==> forall e :: e in ready && e < 4 ==> e in currentWb
      ensures r.Ok? ==> IsReadout(dtm.part, r.value, ready, currentWb, 4)
      ensures r.Ok? ==> FifoClears(dtm.log) == FifoClears(old(dtm.log)) + if clear then 1 else 0
      ensures r.Ok? && clear ==> dtm.log != [] && dtm.log[|dtm.log| - 1] == Write(FIFO_READY, 0xf, false, false)
    {
      hide Decode, Encode, OnlyOrdinary, Programmed, NoUnsafeWrite, ValidList, IsReadout, FifoClears, EnableBit;
      ResetDtm(dtm);
      ResetClearsNothing(dtm.part, old(dtm.log), dtm.log);
      EmptyReadout(dtm.part, ready, currentWb);
      var found: seq<Captured> := [];
      ghost var regs, log := dtm.regs, dtm.log;
      for e := 0 to 4
        invariant dtm.Disabled() && dtm.regs == regs && dtm.log == log
        invariant IsReadout(dtm.part, found, ready, currentWb, e)
      {
        if e in ready {
          if e !in currentWb {
            return Err(e);
          }
          ConfigOf(dtm.part, dtm.regs, e, RESET_WP);
          ReadoutAdds(dtm.part, found, ready, currentWb, e);
          found := found + [Captured(e, Decode(dtm.part, Reg(dtm.regs, WP0_CONFIG + 24 * e)), currentWb[e])];
        } else {
          ReadoutSkips(dtm.part, found, ready, currentWb, e);
        }
      }
      forall e | e in ready && e < 4
        ensures e in currentWb
      {
        ReadoutHas(dtm.part, found, ready, currentWb, 4, e);
      }
      if clear {
        ClearingIsCounted(dtm.log, Write(FIFO_READY, 0xf, false, false));
        dtm.ClearFifo();
      }
      return Ok(found);
    }

    /**
     A session: configure, then for each sample read out and configure again, then disable.
     Over the whole run the binds programmed in a direction are those of the round robin, and
     each sample is collected under the binds that were programmed for it.
     */
    method Trace(atb: bool, count: bool, samples: seq<set<nat>>)
      returns (ok: bool, captured: seq<seq<Captured>>, ghost ups: seq<Bind>, ghost dns: seq<Bind>)
      requires Valid() && NoUnsafeWrite(dtm.log)
      modifies dtm`regs, dtm`log, dtm`cachedEnable, up`index, dn`index, this`currentWb
      ensures Valid() && dtm.Good()
      ensures ok ==> dtm.Disabled()
      ensures ok && !up.IsEmpty() ==> ups == Schedule(up.bindList, old(up.index), |samples| + 1)
      ensures ok && !dn.IsEmpty() ==> dns == Schedule(dn.bindList, old(dn.index), |samples| + 1)
      ensures !up.IsEmpty() && !dn.IsEmpty() ==> ok
      ensures ok ==> FifoClears(dtm.log) == FifoClears(old(dtm.log)) + |samples| && |captured| == |samples|
      ensures ok && !(up.IsEmpty() && dn.IsEmpty()) ==>
                forall k :: 0 <= k < |samples| ==>
                  IsReadout(dtm.part, captured[k], samples[k], RecordAt(up.bindList, old(up.index), dn.bindList, old(dn.index), k), 4)
    {
      hide Step, After, Slots, FourProgrammed, ControlFirst, Decode, Encode, ValidList, NoUnsafeWrite, SessionControl, Programmed,
           DirectionBinds, EnableBit, AllValid, IsReadout, FifoClears, CountersClear, NextMany, RecordAt, Schedule, NextStep, NextIndex;
      ghost var l, i, m, j := up.bindList, up.index, dn.bindList, dn.index;
      ConfigureDtm(atb, count);
      BothDirectionsRecorded(l, i, m, j);
      RecordAtIs(l, i, m, j, 0);
      MoreSteps(l, i, 0);
      MoreSteps(m, j, 0);
      ups, dns := NextStep(l, i), NextStep(m, j);
      ok, captured := true, [];
      for k := 0 to |samples|
        invariant Valid() && dtm.Good() && ok
        invariant (l != [] ==> ups == Schedule(l, i, k + 1)) && (m != [] ==> dns == Schedule(m, j, k + 1))
        invariant up.index == NextMany(l, i, k + 1) && dn.index == NextMany(m, j, k + 1)
        invariant !(l == [] && m == []) ==> currentWb == RecordAt(l, i, m, j, k)
        invariant l != [] && m != [] ==> forall e: nat :: e < 4 ==> e in currentWb
        invariant |captured| == k && FifoClears(dtm.log) == FifoClears(old(dtm.log)) + k
        invariant !(l == [] && m == []) ==>
          forall n :: 0 <= n < k ==> IsReadout(dtm.part, captured[n], samples[n], RecordAt(l, i, m, j, n), 4)
      {
        MoreSteps(l, i, k + 1);
        MoreSteps(m, j, k + 1);
        RecordAtIs(l, i, m, j, k + 1);
        BothDirectionsRecorded(l, up.index, m, dn.index);
        ups, dns := ups + NextStep(l, up.index), dns + NextStep(m, dn.index);
        var r := Sample(atb, count, samples[k]);
        if r.Err? {
          return false, captured, ups, dns;
        }
        captured := captured + [r.value];
      }
      OtherIsNotCounted(dtm.log, Write(CONTROL, ClearMask(Reg(dtm.regs, CONTROL), DTM_ENABLE), true, dtm.Enabled()));
      dtm.Disable();
    }

    /** One round of a session: collect what is ready, empty the FIFO, configure again. */
    method Sample(atb: bool, count: bool, ready: set<nat>) returns (r: Result<seq<Captured>, nat>)
      requires Valid() && NoUnsafeWrite(dtm.log)
      modifies dtm`regs, dtm`log, dtm`cachedEnable, up`index, dn`index, this`currentWb
      ensures Valid() && dtm.Good()
      ensures r.Ok? <==> forall e :: e in ready && e < 4 ==> e in old(currentWb)
      ensures r.Ok? ==> IsReadout(dtm.part, r.value, ready, old(currentWb), 4)
      ensures r.Ok? ==> FifoClears(dtm.log) == FifoClears(old(dtm.log)) + 1
      ensures r.Ok? ==> up.index == NextIndex(up.bindList, old(up.index)) && dn.index == NextIndex(dn.bindList, old(dn.index))
      ensures r.Ok? && !(up.IsEmpty() && dn.IsEmpty()) ==>
                currentWb == DirectionBinds(DirectionBinds(map[], 0, NextStep(up.bindList, old(up.index))),
                                            2, NextStep(dn.bindList, old(dn.index)))
    {
      hide Step, After, Slots, FourProgrammed, ControlFirst, Decode, Encode, ValidList, NoUnsafeWrite, SessionControl, Programmed,
           DirectionBinds, EnableBit, AllValid, IsReadout, FifoClears, CountersClear, NextStep, NextIndex;
      r := TraceReadout(ready, true);
      if r.Ok? {
        ConfigureDtm(atb, count);
      }
    }
  }

  /** The position of a rotation, which may be empty, after k configurations. */
  function NextMany(l: seq<Bind>, i: nat, k: nat): nat
    requires l == [] || i < |l|
  {
    if l == [] then i else AfterMany(l, i, k)
  }

  lemma NextManyIs(l: seq<Bind>, i: nat, k: nat)
    requires l == [] || i < |l|
    ensures NextMany(l, i, 0) == i && NextMany(l, i, k + 1) == NextIndex(l, NextMany(l, i, k))
    ensures l != [] ==> NextMany(l, i, k) < |l|
  {
    if l != [] {
      OneMore(l, i, k);
    }
  }

  lemma MoreSteps(l: seq<Bind>, i: nat, k: nat)
    requires l == [] || i < |l|
    ensures l == [] || NextMany(l, i, k) < |l|
    ensures l != [] ==> Schedule(l, i, k + 1) == Schedule(l, i, k) + NextStep(l, NextMany(l, i, k))
    ensures l != [] ==> Schedule(l, i, 0) == [] && Schedule(l, i, 1) == NextStep(l, i)
  {
    if l != [] {
      OneMore(l, i, k);
      OneMore(l, i, 0);
    }
  }

  /** The binds on record after k configurations more. */
  function RecordAt(l: seq<Bind>, i: nat, m: seq<Bind>, j: nat, k: nat): map<nat, Option<Bind>>
    requires (l == [] || i < |l|) && (m == [] || j < |m|)
  {
    NextManyIs(l, i, k);
    NextManyIs(m, j, k);
    DirectionBinds(DirectionBinds(map[], 0, NextStep(l, NextMany(l, i, k))), 2, NextStep(m, NextMany(m, j, k)))
  }

  lemma RecordAtIs(l: seq<Bind>, i: nat, m: seq<Bind>, j: nat, k: nat)
    requires (l == [] || i < |l|) && (m == [] || j < |m|)
    ensures NextMany(l, i, 0) == i && NextMany(m, j, 0) == j
    ensures l == [] || NextMany(l, i, k) < |l|
    ensures m == [] || NextMany(m, j, k) < |m|
    ensures NextMany(l, i, k + 1) == NextIndex(l, NextMany(l, i, k)) && NextMany(m, j, k + 1) == NextIndex(m, NextMany(m, j, k))
    ensures RecordAt(l, i, m, j, k)
         == DirectionBinds(DirectionBinds(map[], 0, NextStep(l, NextMany(l, i, k))), 2, NextStep(m, NextMany(m, j, k)))
  {
    NextManyIs(l, i, k);
    NextManyIs(m, j, k);
  }

  lemma Regroup(a: seq<Write>, b: seq<Write>, c: seq<Write>, d: seq<Write>)
    ensures a + b + c + d == a + (b + c + d)
  {
  }

  /** If both directions have binds, there is a record for each of the four watchpoints. */
  lemma BothDirectionsRecorded(l: seq<Bind>, i: nat, m: seq<Bind>, j: nat)
    requires ValidList(l) && ValidList(m) && (l != [] ==> i < |l|) && (m != [] ==> j < |m|)
    ensures l != [] && m != [] ==>
              forall e: nat :: e < 4 ==> e in DirectionBinds(DirectionBinds(map[], 0, NextStep(l, i)), 2, NextStep(m, j))
  {
    hide Second, Share, After;
    EmptySteps(l, i);
    EmptySteps(m, j);
  }

  /** The control word that a direction writes, if any: it carries the tag setting of the first upload bind. */
  function ControlWord(s: seq<Bind>, isUp: bool, ctl: Option<bv64>): Option<bv64> {
    if s == [] || ctl.None? then None
    else if isUp && s[0].tag then Some(SetMask(ctl.value, TRACE_TAG_ENABLE))
    else ctl
  }

  /** The control word of a running session: it sets tags exactly if the first upload bind does. */
  function SessionControl(atb: bool, us: seq<Bind>): bv64 {
    (if atb then 0 else TRACE_NO_ATB) | (if us != [] && us[0].tag then TRACE_TAG_ENABLE else 0) | DTM_ENABLE
  }

  function FinishedControl(c: bv64, atb: bool): bv64 {
    if atb then SetMask(c, DTM_ENABLE) else SetMask(SetMask(c, TRACE_NO_ATB), DTM_ENABLE)
  }

  /** The control word that is written outright. */
  function FirstControl(atb: bool, us: seq<Bind>): bv64 {
    var c := if atb then 0 else TRACE_NO_ATB;
    if us != [] && us[0].tag then SetMask(c, TRACE_TAG_ENABLE) else c
  }

  /** Bit by bit: enabled, setting tags exactly if the first upload bind does, kept off the bus unless it goes there. */
  lemma SessionControlBits(atb: bool, us: seq<Bind>)
    ensures var c := SessionControl(atb, us);
            && c & 0x1 != 0
            && (c & 0x2 != 0 <==> us != [] && us[0].tag)
            && (c & 0x8 != 0 <==> !atb)
            && c | 0xb == 0xb
  {
  }

  lemma FinalControl(atb: bool, us: seq<Bind>)
    ensures FinishedControl(FirstControl(atb, us), atb) == SessionControl(atb, us)
  {
  }

  lemma EmptySteps(l: seq<Bind>, i: nat)
    requires ValidList(l) && (l == [] || i < |l|)
    ensures AllValid(NextStep(l, i))
    ensures NextStep(l, i) == [] <==> l == []
    ensures l == [] ==> NextIndex(l, i) == i && Slots(NextStep(l, i)) == (OFF_WP, OFF_WP)
  {
    if l != [] {
      StepIsValid(l, i);
    }
  }

  /** Whichever direction has binds, the control word comes before the first armed watchpoint. */
  lemma DirectionsOrder(p: Part, quiet: seq<Write>, us: seq<Bind>, ds: seq<Bind>, control: bv64, rest: Option<bv64>)
    requires Quiet(p, quiet) && AllValid(us) && AllValid(ds) && (us != [] || ds != [])
    requires rest == if us == [] then Some(control) else None
    ensures ControlFirst(p, quiet + DirectionWrites(p, 0, ControlWord(us, true, Some(control)), Slots(us))
                              + DirectionWrites(p, 2, ControlWord(ds, false, rest), Slots(ds)))
  {
    hide DirectionWrites, Quiet, OnlyOrdinary, ControlFirst, AllValid, First, Second;
    var w0 := DirectionWrites(p, 0, ControlWord(us, true, Some(control)), Slots(us));
    var w1 := DirectionWrites(p, 2, ControlWord(ds, false, rest), Slots(ds));
    DirectionWritesOrder(p, 0, ControlWord(us, true, Some(control)), Slots(us));
    DirectionWritesOrder(p, 2, ControlWord(ds, false, rest), Slots(ds));
    JoinQuiet(p, quiet, w0);
    JoinControlFirst(p, quiet, w0);
    JoinControlFirst(p, quiet + w0, w1);
  }

  lemma OneReadModifyIsQuiet(p: Part, s: seq<Write>)
    requires |s| == 1 && s[0].off == CONTROL && s[0].readModify
    ensures Quiet(p, s) && OnlyOrdinary(s)
  {
  }
}
