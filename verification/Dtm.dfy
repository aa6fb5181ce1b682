/**
 The debug and trace monitor (DTM) of a crosspoint: its registers, the layout of a
 watchpoint's configuration word, and the guard on writes while the monitor is enabled.
 */
module DtmRegisters {
  import opened Options

  // ---------------------------------------------------------------- watchpoint configuration words

  /** A watchpoint as the tools describe it.  None leaves a field of the word, or a register, alone. */
  datatype Watchpoint = Watchpoint(
    value: Option<bv64>, mask: bv64,
    chn: Option<bv64>, dev: Option<bv64>, grp: Option<bv64>, fmt: Option<bv64>,
    pktGen: bool, cc: bool, exclusive: bool, combine: bool, ctrig: bool, dbgtrig: bool)

  /** What a configuration word says. */
  datatype Config = Config(
    chn: bv64, dev: bv64, grp: bv64, fmt: bv64,
    pktGen: bool, cc: bool, exclusive: bool, combine: bool, ctrig: bool, dbgtrig: bool)

  /** CMN-600 places its fields differently from all later parts; only those can have XPs of more than two ports. */
  datatype Part = Part(isCmn600: bool, manyPorts: bool)

  function Flag(on: bool, bit: bv64): bv64 {
    if on then bit else 0
  }

  function OrNone(n: Option<bv64>): bv64 {
    if n.Some? then n.value else 0
  }

  /** The port and channel bits, and the flags and packet format where CMN-600 has them. */
  function Word600(w: Config): bv64 {
    Flag(w.pktGen, 0x100) | Flag(w.combine, 0x40) | Flag(w.cc, 0x1000)
    | Flag(w.exclusive, 0x20) | Flag(w.ctrig, 0x2000) | Flag(w.dbgtrig, 0x4000)
    | (w.fmt << 9) | (w.chn << 1) | (w.dev & 1) | (if w.dev >= 2 then (w.dev >> 1) << 17 else 0) | (w.grp << 4)
  }

  function Word700(w: Config): bv64 {
    Flag(w.pktGen, 0x400) | Flag(w.combine, 0x200) | Flag(w.cc, 0x4000)
    | Flag(w.exclusive, 0x100) | Flag(w.ctrig, 0x8000) | Flag(w.dbgtrig, 0x10000)
    | (w.fmt << 11) | (w.chn << 1) | (w.dev & 1) | (if w.dev >= 2 then (w.dev >> 1) << 17 else 0) | (w.grp << 4)
  }

  function Encode(p: Part, w: Watchpoint): bv64 {
    if p.isCmn600 then Word600(Meaning(w)) else Word700(Meaning(w))
  }

  function Decode(p: Part, cfg: bv64): Config {
    var chn := (cfg >> 1) & 3;
    var dev := (cfg & 1) | (if p.manyPorts then ((cfg >> 17) & 1) << 1 else 0);
    if p.isCmn600 then
      Config(chn, dev, (cfg >> 4) & 1, (cfg >> 9) & 7, cfg & 0x100 != 0, (cfg >> 12) & 1 != 0,
             cfg & 0x20 != 0, cfg & 0x40 != 0, cfg & 0x2000 != 0, cfg & 0x4000 != 0)
    else
      Config(chn, dev, (cfg >> 4) & 3, (cfg >> 11) & 7, cfg & 0x400 != 0, (cfg >> 14) & 1 != 0,
             cfg & 0x100 != 0, cfg & 0x200 != 0, cfg & 0x8000 != 0, cfg & 0x10000 != 0)
  }

  predicate GeneratesPackets(p: Part, cfg: bv64) {
    cfg & (if p.isCmn600 then 0x100 else 0x400) != 0
  }

  /** Field values that the word has room for. */
  predicate Encodable(p: Part, w: Watchpoint) {
    OrNone(w.chn) < 4 && OrNone(w.fmt) < 8 &&
    OrNone(w.dev) < (if p.manyPorts then 4 else 2) &&
    OrNone(w.grp) < (if p.isCmn600 then 2 else 4) &&
    !(p.isCmn600 && p.manyPorts)
  }

  /** What reading back the word of a watchpoint should say. */
  function Meaning(w: Watchpoint): Config {
    Config(OrNone(w.chn), OrNone(w.dev), OrNone(w.grp), OrNone(w.fmt),
           w.pktGen, w.cc, w.exclusive, w.combine, w.ctrig, w.dbgtrig)
  }

  lemma Fields600(w: Config)
    requires w.chn < 4 && w.dev < 2 && w.grp < 2 && w.fmt < 8
    ensures var cfg := Word600(w);
            (cfg >> 1) & 3 == w.chn && cfg & 1 == w.dev && (cfg >> 4) & 1 == w.grp && (cfg >> 9) & 7 == w.fmt
  {
  }

  lemma Flags600(w: Config)
    requires w.chn < 4 && w.dev < 2 && w.grp < 2 && w.fmt < 8
    ensures var cfg := Word600(w);
            && (cfg & 0x100 != 0 <==> w.pktGen) && ((cfg >> 12) & 1 != 0 <==> w.cc)
            && (cfg & 0x20 != 0 <==> w.exclusive) && (cfg & 0x40 != 0 <==> w.combine)
            && (cfg & 0x2000 != 0 <==> w.ctrig) && (cfg & 0x4000 != 0 <==> w.dbgtrig)
  {
  }

  lemma Fields700(w: Config)
    requires w.chn < 4 && w.dev < 4 && w.grp < 4 && w.fmt < 8
    ensures var cfg := Word700(w);
            && (cfg >> 1) & 3 == w.chn && (cfg >> 4) & 3 == w.grp && (cfg >> 11) & 7 == w.fmt
            && (cfg & 1) | (((cfg >> 17) & 1) << 1) == w.dev && (w.dev < 2 ==> cfg & 1 == w.dev)
  {
  }

  lemma Flags700(w: Config)
    requires w.chn < 4 && w.dev < 4 && w.grp < 4 && w.fmt < 8
    ensures var cfg := Word700(w);
            && (cfg & 0x400 != 0 <==> w.pktGen) && ((cfg >> 14) & 1 != 0 <==> w.cc)
            && (cfg & 0x100 != 0 <==> w.exclusive) && (cfg & 0x200 != 0 <==> w.combine)
            && (cfg & 0x8000 != 0 <==> w.ctrig) && (cfg & 0x10000 != 0 <==> w.dbgtrig)
  {
  }

  /** No field of a configuration word overlaps another, for either layout. */
  lemma DecodeEncode(p: Part, w: Watchpoint)
    requires Encodable(p, w)
    ensures Decode(p, Encode(p, w)) == Meaning(w)
  {
    hide Word600, Word700;
    if p.isCmn600 {
      Fields600(Meaning(w));
      Flags600(Meaning(w));
    } else {
      Fields700(Meaning(w));
      Flags700(Meaning(w));
    }
  }

  // ---------------------------------------------------------------- registers and the write guard

  const CONTROL := 0x100
  const FIFO_READY := 0x118
  const WP0_CONFIG := 0x1A0
  const WP0_VAL := 0x1A8
  const WP0_MASK := 0x1B0
  const PMU_CONFIG := 0x210
  const PMU_PMEVCNT := 0x220

  const DTM_ENABLE: bv64 := 0x1
  const TRACE_TAG_ENABLE: bv64 := 0x2
  const TRACE_NO_ATB: bv64 := 0x8

  /** Registers that may be written only while the monitor is disabled. */
  predicate IsProgramming(off: nat) {
    0x100 <= off <= 0x4ff && off != CONTROL && off != FIFO_READY
  }

  /** One register write, and whether the hardware's enable bit was set when it was made. */
  datatype Write = Write(off: nat, value: bv64, readModify: bool, enabled: bool)

  ghost predicate NoUnsafeWrite(log: seq<Write>) {
    forall i :: 0 <= i < |log| && IsProgramming(log[i].off) ==> !log[i].enabled
  }

  function SetMask(c: bv64, mask: bv64): bv64 {
    c | mask
  }

  function ClearMask(c: bv64, mask: bv64): bv64 {
    c & !mask
  }

  /** The hardware's enable bit. */
  predicate EnableBit(c: bv64) {
    c & DTM_ENABLE != 0
  }

  function Reg(regs: map<nat, bv64>, off: nat): bv64 {
    if off in regs then regs[off] else 0
  }

  function WpRegs(p: Part, regs: map<nat, bv64>, wp: nat, w: Watchpoint): map<nat, bv64> {
    var r := if w.value.Some? then regs[WP0_VAL + 24 * wp := w.value.value][WP0_MASK + 24 * wp := w.mask] else regs;
    r[WP0_CONFIG + 24 * wp := Encode(p, w)]
  }

  function WpWrites(p: Part, wp: nat, w: Watchpoint): seq<Write> {
    (if w.value.Some? then
       [Write(WP0_VAL + 24 * wp, w.value.value, false, false), Write(WP0_MASK + 24 * wp, w.mask, false, false)]
     else [])
    + [Write(WP0_CONFIG + 24 * wp, Encode(p, w), false, false)]
  }

  /** A watchpoint that matches nothing. */
  const RESET_WP := Watchpoint(Some(0xcccccccccccccccc), 0, None, None, None, Some(4),
                               false, false, false, false, false, false)

  /** A watchpoint that generates nothing. */
  const OFF_WP := Watchpoint(Some(0), 0xffffffffffffffff, None, None, None, None,
                             false, false, false, false, false, false)

  class Dtm {
    const part: Part
    var regs: map<nat, bv64>
    var cachedEnable: Option<bool>
    ghost var log: seq<Write>

    /** A monitor as discovery finds it: in any state, with nothing cached. */
    constructor (part: Part, regs: map<nat, bv64>)
      ensures this.part == part && this.regs == regs && cachedEnable == None && log == []
    {
      this.part, this.regs, cachedEnable, log := part, regs, None, [];
    }

    predicate Enabled()
      reads this
    {
      EnableBit(Reg(regs, CONTROL))
    }

    /** What every operation keeps: the cached flag is the hardware's, and no programming write was unsafe. */
    ghost predicate Good()
      reads this
    {
      (cachedEnable.Some? ==> cachedEnable.value == Enabled()) && NoUnsafeWrite(log)
    }

    ghost predicate Disabled()
      reads this
    {
      Good() && cachedEnable == Some(false)
    }

    /** The assertion made before every register write.  It trusts the cached flag. */
    predicate GuardPasses(off: nat)
      reads this
    {
      !(IsProgramming(off) && cachedEnable == Some(true))
    }

    method Write64(off: nat, value: bv64, ghost readModify: bool)
      requires GuardPasses(off)
      modifies this`regs, this`log
      ensures regs == if off == FIFO_READY then old(regs) else old(regs)[off := value]
      ensures log == old(log) + [Write(off, value, readModify, old(Enabled()))]
      ensures NoUnsafeWrite(old(log)) && (IsProgramming(off) ==> !old(Enabled())) ==> NoUnsafeWrite(log)
    {
      log := log + [Write(off, value, readModify, Enabled())];
      if off != FIFO_READY {
        regs := regs[off := value];
      }
    }

    method SetBits(off: nat, mask: bv64)
      requires GuardPasses(off) && off != FIFO_READY
      modifies this`regs, this`log
      ensures regs == old(regs)[off := SetMask(Reg(old(regs), off), mask)]
      ensures log == old(log) + [Write(off, SetMask(Reg(old(regs), off), mask), true, old(Enabled()))]
      ensures NoUnsafeWrite(old(log)) && (IsProgramming(off) ==> !old(Enabled())) ==> NoUnsafeWrite(log)
    {
      Write64(off, SetMask(Reg(regs, off), mask), true);
    }

    method ClearBits(off: nat, mask: bv64)
      requires GuardPasses(off) && off != FIFO_READY
      modifies this`regs, this`log
      ensures regs == old(regs)[off := ClearMask(Reg(old(regs), off), mask)]
      ensures log == old(log) + [Write(off, ClearMask(Reg(old(regs), off), mask), true, old(Enabled()))]
      ensures NoUnsafeWrite(old(log)) && (IsProgramming(off) ==> !old(Enabled())) ==> NoUnsafeWrite(log)
    {
      Write64(off, ClearMask(Reg(regs, off), mask), true);
    }

    method Enable()
      requires Good()
      modifies this`regs, this`log, this`cachedEnable
      ensures Good() && cachedEnable == Some(true)
      ensures regs == old(regs)[CONTROL := SetMask(Reg(old(regs), CONTROL), DTM_ENABLE)]
      ensures log == old(log) + [Write(CONTROL, Reg(regs, CONTROL), true, old(Enabled()))]
    {
      MasksAndEnable(Reg(regs, CONTROL));
      SetBits(CONTROL, DTM_ENABLE);
      cachedEnable := Some(true);
    }

    /** Works from any state, whatever was cached. */
    method Disable()
      requires NoUnsafeWrite(log)
      modifies this`regs, this`log, this`cachedEnable
      ensures Disabled()
      ensures regs == old(regs)[CONTROL := ClearMask(Reg(old(regs), CONTROL), DTM_ENABLE)]
      ensures log == old(log) + [Write(CONTROL, Reg(regs, CONTROL), true, old(Enabled()))]
    {
      MasksAndEnable(Reg(regs, CONTROL));
      ClearBits(CONTROL, DTM_ENABLE);
      cachedEnable := Some(false);
      var e := IsEnabled();
      assert !e;
    }

    /** The source asserts here that a cached flag agrees with the hardware; Good() is why it does. */
    method IsEnabled() returns (e: bool)
      requires Good()
      modifies this`cachedEnable
      ensures Good() && e == Enabled() && cachedEnable == Some(e)
    {
      e := Enabled();
      if cachedEnable.Some? {
        assert e == cachedEnable.value;
      } else {
        cachedEnable := Some(e);
      }
    }

    /** Write the control register outright.  The flag stays true to it unless `control` carries an enable bit of its own. */
    method SetControl(control: bv64, atb: bool, tag: bool, enable: bool)
      requires Good()
      modifies this`regs, this`log, this`cachedEnable
      ensures cachedEnable == Some(enable) && NoUnsafeWrite(log)
      ensures Good() <==> enable || !EnableBit(control)
      ensures Reg(regs, CONTROL) == PackControl(control, atb, tag, enable)
      ensures forall off :: off != CONTROL ==> Reg(regs, off) == Reg(old(regs), off)
    {
      hide SetMask, EnableBit, NoUnsafeWrite;
      var c := control;
      if !atb {
        c := SetMask(c, TRACE_NO_ATB);
      }
      if tag {
        c := SetMask(c, TRACE_TAG_ENABLE);
      }
      if enable {
        c := SetMask(c, DTM_ENABLE);
      }
      PackedEnable(control, atb, tag, enable);
      assert c == PackControl(control, atb, tag, enable);
      hide PackControl;
      Write64(CONTROL, c, false);
      cachedEnable := Some(enable);
    }

    method ClearFifo()
      requires Good()
      modifies this`regs, this`log
      ensures Good() && regs == old(regs)
      ensures log == old(log) + [Write(FIFO_READY, 0xf, false, old(Enabled()))]
    {
      Write64(FIFO_READY, 0xf, false);
    }

    method WpSet(wp: nat, w: Watchpoint)
      requires Disabled() && wp <= 4 && (wp % 2 == 1 ==> !w.combine)
      modifies this`regs, this`log
      ensures Disabled()
      ensures regs == WpRegs(part, old(regs), wp, w)
      ensures log == old(log) + WpWrites(part, wp, w)
    {
      hide Encode;
      if w.value.Some? {
        Write64(WP0_VAL + 24 * wp, w.value.value, false);
        Write64(WP0_MASK + 24 * wp, w.mask, false);
      }
      Write64(WP0_CONFIG + 24 * wp, Encode(part, w), false);
    }
  }

  lemma MasksAndEnable(c: bv64)
    ensures EnableBit(SetMask(c, DTM_ENABLE)) && !EnableBit(ClearMask(c, DTM_ENABLE))
    ensures EnableBit(SetMask(c, TRACE_TAG_ENABLE)) == EnableBit(SetMask(c, TRACE_NO_ATB)) == EnableBit(c)
    ensures !EnableBit(0) && !EnableBit(TRACE_NO_ATB)
  {
  }

  function PackControl(control: bv64, atb: bool, tag: bool, enable: bool): bv64 {
    var c := if atb then control else SetMask(control, TRACE_NO_ATB);
    var d := if tag then SetMask(c, TRACE_TAG_ENABLE) else c;
    if enable then SetMask(d, DTM_ENABLE) else d
  }

  lemma PackedEnable(control: bv64, atb: bool, tag: bool, enable: bool)
    ensures EnableBit(PackControl(control, atb, tag, enable)) <==> enable || EnableBit(control)
  {
  }

  /** The control word, bit by bit: enabling, setting tags, keeping trace off the bus; all others are the caller's. */
  lemma ControlBits(control: bv64, atb: bool, tag: bool, enable: bool)
    ensures var c := PackControl(control, atb, tag, enable);
            && (c & 0x1 != 0 <==> enable || control & 0x1 != 0)
            && (c & 0x2 != 0 <==> tag || control & 0x2 != 0)
            && (c & 0x8 != 0 <==> !atb || control & 0x8 != 0)
            && c | 0xb == control | 0xb
  {
  }

  /** A monitor with this control word sets the trace tag on what it matches, and keeps trace in its FIFO. */
  predicate SetsTags(c: bv64) {
    c & TRACE_TAG_ENABLE != 0 && c & TRACE_NO_ATB != 0
  }

  lemma EnablingKeepsTags(c: bv64)
    ensures SetsTags(SetMask(c, DTM_ENABLE)) == SetsTags(ClearMask(c, DTM_ENABLE)) == SetsTags(c)
  {
  }

  lemma TagControl()
    ensures SetsTags(PackControl(0, false, true, false)) && !EnableBit(PackControl(0, false, true, false))
  {
  }

  /** Every programming write to the monitor while it is enabled is stopped by the guard. */
  ghost predicate Guarded(d: Dtm)
    reads d
  {
    forall off :: IsProgramming(off) && d.Enabled() ==> !d.GuardPasses(off)
  }

  /** The guard suffices exactly while the monitor is disabled or the flag is cached as true. */
  lemma GuardSufficesIff(d: Dtm)
    ensures Guarded(d) <==> !d.Enabled() || d.cachedEnable == Some(true)
  {
    assert IsProgramming(WP0_CONFIG);
  }

  /** So, as long as a cached flag tells the truth, exactly while the monitor is disabled or a flag is cached. */
  lemma GuardSufficesOnceCached(d: Dtm)
    requires d.Good()
    ensures Guarded(d) <==> !d.Enabled() || d.cachedEnable.Some?
  {
    GuardSufficesIff(d);
  }

  /**
   The guard alone does not keep programming writes off an enabled monitor: before the flag
   is first cached it lets every write pass.  All sessions therefore start with Disable.
   */
  method GuardMissesUncachedEnable(part: Part) returns (d: Dtm)
    ensures fresh(d) && d.Good() && d.Enabled() && d.GuardPasses(WP0_CONFIG) && !Guarded(d)
  {
    d := new Dtm(part, map[CONTROL := DTM_ENABLE]);
    GuardSufficesIff(d);
  }
}
