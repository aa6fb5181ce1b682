/**
 The hashed address regions of a request node's system address map, and the node ids that
 they take, region by region, from shared target tables.
 */
module SamRegions {
  import opened Bits
  import opened Options

  /** 64-bit registers by offset. */
  type Registers = nat -> nat

  /** A field of a packed register array; None is an index past its last register. */
  function ArrRead(regs: Registers, offs: seq<nat>, width: nat, ix: nat, fieldsPerReg: nat): (v: Option<nat>)
    requires fieldsPerReg > 0
    ensures v.Some? <==> ix < fieldsPerReg * |offs|
  {
    InArray(ix, fieldsPerReg, |offs|);
    if ix / fieldsPerReg < |offs| then Some(Field(regs(offs[ix / fieldsPerReg]), ix % fieldsPerReg * width, width)) else None
  }

  lemma InArray(ix: nat, per: nat, n: nat)
    requires per > 0
    ensures ix / per < n <==> ix < per * n
  {
    if ix / per < n {
      assert ix / per + 1 <= n;
      assert per * (ix / per + 1) <= per * n;
    } else {
      assert per * n <= per * (ix / per);
    }
  }

  /** Register offsets from a first one, eight bytes apart. */
  function Offsets(first: nat, n: nat): seq<nat> {
    seq(n, i => first + 8 * i)
  }

  // ---------------------------------------------------------------- the table of regions

  /** Which of the two target tables a hashed region draws on. */
  datatype Target = HNF | HNP

  datatype Layout = Cmn600 | Cmn700

  function TableOffsets(l: Layout, t: Target): seq<nat> {
    match (l, t)
    case (Cmn600, HNF) => Offsets(0xC58, 8) + Offsets(0xF58, 8)
    case (Cmn600, HNP) => []
    case (Cmn700, HNF) => Offsets(0xF00, 32)
    case (Cmn700, HNP) => Offsets(0x3600, 16)
  }

  function Entries(l: Layout): nat {
    match l
    case Cmn600 => 4
    case Cmn700 => 32
  }

  /** The word that describes region i. */
  function Info(regs: Registers, l: Layout, i: nat): nat {
    match l
    case Cmn600 => Field(regs(0xC48 + 8 * (i / 2)), i % 2 * 32, 32)
    case Cmn700 => regs(if i < 8 then 0xE00 + 8 * i else 0x3040 + 8 * (i - 8))
  }

  function HnCount(regs: Registers, l: Layout, i: nat): nat
    requires i < Entries(l)
  {
    match l
    case Cmn600 => Field(regs(0xD00), i * 8, 8)
    case Cmn700 => ArrRead(regs, [0xEA0, 0xEA8, 0x3710, 0x3718], 8, i, 8).value
  }

  function TargetOf(regs: Registers, l: Layout, i: nat): Target {
    if l == Cmn700 && Field(regs(0x3400 + 8 * i), 24, 1) == 1 then HNP else HNF
  }

  predicate Enabled(regs: Registers, l: Layout, i: nat) {
    Field(Info(regs, l, i), 0, 1) == 1
  }

  predicate Hashed(regs: Registers, l: Layout, i: nat) {
    Field(Info(regs, l, i), 1, 1) == 0
  }

  /** The bits of an entry: enabled, not hashed, and on the later layout which table it draws on. */
  lemma EntryBits(regs: Registers, l: Layout, i: nat)
    requires i < Entries(l)
    ensures Enabled(regs, l, i) <==> Info(regs, l, i) % 2 == 1
    ensures Hashed(regs, l, i) <==> Info(regs, l, i) / 2 % 2 == 0
    ensures TargetOf(regs, Cmn600, i) == HNF
    ensures TargetOf(regs, Cmn700, i) == HNP <==> regs(0x3400 + 8 * i) / 0x1_000000 % 2 == 1
  {
    hide Info;
    assert Pow2(24) == 0x100 * Pow2(16) && Pow2(16) == 0x100 * Pow2(8) by {
      SmallPowers();
    }
    SmallPowers();
    hide Pow2;
  }

  /** On CMN-600 the counts are bytes of one register, and two entries share a register. */
  lemma Cmn600Entries(regs: Registers, i: nat)
    requires i < 4
    ensures HnCount(regs, Cmn600, i) == regs(0xD00) / Pow2(8 * i) % 256
    ensures Info(regs, Cmn600, i) == regs(if i < 2 then 0xC48 else 0xC50) / Pow2(if i % 2 == 0 then 0 else 32) % Pow2(32)
  {
    SmallPowers();
    hide Pow2;
  }

  lemma SmallPowers()
    ensures Pow2(0) == 1 && Pow2(1) == 2 && Pow2(8) == 256 && Pow2(16) == 0x10000 && Pow2(24) == 0x1_000000
  {
    assert Pow2(4) == 16;
    assert Pow2(8) == 16 * Pow2(4);
    assert Pow2(12) == 16 * Pow2(8);
    assert Pow2(16) == 16 * Pow2(12);
    assert Pow2(20) == 16 * Pow2(16);
    assert Pow2(24) == 16 * Pow2(20);
  }

  /** nodeIds is None on a region that is not hashed. */
  datatype Region = Region(index: nat, count: nat, target: Target, nodeIds: Option<seq<nat>>)

  /** Node ids at consecutive positions of a table. */
  function ReadIds(regs: Registers, offs: seq<nat>, from: nat, count: nat): Option<seq<nat>> {
    if count == 0 then Some([])
    else
      var before := ReadIds(regs, offs, from, count - 1);
      var last := ArrRead(regs, offs, 12, from + count - 1, 4);
      if before == None || last == None then None else Some(before.value + [last.value])
  }

  /** The whole of a table. */
  function Table(regs: Registers, offs: seq<nat>): (ids: seq<nat>)
    ensures |ids| == 4 * |offs|
  {
    seq(4 * |offs|, ix requires 0 <= ix < 4 * |offs| => ArrRead(regs, offs, 12, ix, 4).value)
  }

  lemma {:induction false} ReadIdsIsSlice(regs: Registers, offs: seq<nat>, from: nat, count: nat)
    requires from <= 4 * |offs|
    ensures ReadIds(regs, offs, from, count)
         == if from + count <= 4 * |offs| then Some(Table(regs, offs)[from..from + count]) else None
  {
    if count == 0 {
      assert Table(regs, offs)[from..from] == [];
    } else {
      ReadIdsIsSlice(regs, offs, from, count - 1);
      hide ArrRead;
      if from + count <= 4 * |offs| {
        assert Table(regs, offs)[from..from + count] == Table(regs, offs)[from..from + count - 1] + [Table(regs, offs)[from + count - 1]];
      }
    }
  }

  // ---------------------------------------------------------------- what the regions take

  /** How many node ids the hashed regions below n take from a table. */
  function Taken(regs: Registers, l: Layout, t: Target, n: nat): nat
    requires n <= Entries(l)
  {
    if n == 0 then 0
    else
      Taken(regs, l, t, n - 1)
      + if Enabled(regs, l, n - 1) && Hashed(regs, l, n - 1) && TargetOf(regs, l, n - 1) == t then HnCount(regs, l, n - 1) else 0
  }

  /** The enabled entries below n. */
  function EnabledBelow(regs: Registers, l: Layout, n: nat): seq<nat> {
    if n == 0 then [] else EnabledBelow(regs, l, n - 1) + if Enabled(regs, l, n - 1) then [n - 1] else []
  }

  /** The node ids of regions that draw on a table, one region's after the other's. */
  function IdsOf(regions: seq<Region>, t: Target): seq<nat> {
    if regions == [] then []
    else
      var r := regions[|regions| - 1];
      IdsOf(regions[..|regions| - 1], t) + if r.nodeIds.Some? && r.target == t then r.nodeIds.value else []
  }

  function Indexes(regions: seq<Region>): seq<nat> {
    seq(|regions|, i requires 0 <= i < |regions| => regions[i].index)
  }

  lemma IdsOfAppend(regions: seq<Region>, r: Region, t: Target)
    ensures IdsOf(regions + [r], t) == IdsOf(regions, t) + if r.nodeIds.Some? && r.target == t then r.nodeIds.value else []
  {
    assert (regions + [r])[..|regions|] == regions;
  }

  lemma {:induction false} TakenGrows(regs: Registers, l: Layout, t: Target, m: nat, n: nat)
    requires m <= n <= Entries(l)
    ensures Taken(regs, l, t, m) <= Taken(regs, l, t, n)
  {
    hide Enabled, Hashed, TargetOf, HnCount;
    if m < n {
      TakenGrows(regs, l, t, m, n - 1);
    }
  }

  predicate Fits(regs: Registers, l: Layout, n: nat)
    requires n <= Entries(l)
  {
    Taken(regs, l, HNF, n) <= 4 * |TableOffsets(l, HNF)| && Taken(regs, l, HNP, n) <= 4 * |TableOffsets(l, HNP)|
  }

  function First(n: nat, s: seq<nat>): seq<nat> {
    if n <= |s| then s[..n] else s
  }

  ghost predicate IsRegion(regs: Registers, l: Layout, r: Region) {
    r.index < Entries(l) && Enabled(regs, l, r.index) && r.count == HnCount(regs, l, r.index) &&
    r.target == TargetOf(regs, l, r.index) && (r.nodeIds.Some? <==> Hashed(regs, l, r.index)) &&
    (r.nodeIds.Some? ==> |r.nodeIds.value| == r.count)
  }

  /** The regions are those of the entries below n, and hold the starts of the tables. */
  ghost predicate Walked(regs: Registers, l: Layout, regions: seq<Region>, n: nat)
    requires n <= Entries(l)
  {
    Fits(regs, l, n) && Indexes(regions) == EnabledBelow(regs, l, n) &&
    (forall t :: IdsOf(regions, t) == First(Taken(regs, l, t, n), Table(regs, TableOffsets(l, t)))) &&
    forall k :: 0 <= k < |regions| ==> IsRegion(regs, l, regions[k])
  }

  lemma WalkedPastDisabled(regs: Registers, l: Layout, regions: seq<Region>, i: nat)
    requires i < Entries(l) && Walked(regs, l, regions, i) && !Enabled(regs, l, i)
    ensures Walked(regs, l, regions, i + 1)
  {
    hide Enabled, Hashed, TargetOf, HnCount, TableOffsets, Table, IdsOf, IsRegion;
  }

  lemma IndexesAppend(regions: seq<Region>, r: Region)
    ensures Indexes(regions + [r]) == Indexes(regions) + [r.index]
  {
  }

  lemma SlicesMeet(s: seq<nat>, m: nat, n: nat)
    requires m <= n <= |s|
    ensures First(m, s) + s[m..n] == First(n, s)
  {
  }

  lemma WalkedPastRegion(regs: Registers, l: Layout, regions: seq<Region>, r: Region)
    requires IsRegion(regs, l, r) && Walked(regs, l, regions, r.index) && Fits(regs, l, r.index + 1)
    requires r.nodeIds.Some? ==>
               var start := Taken(regs, l, r.target, r.index);
               start + r.count <= 4 * |TableOffsets(l, r.target)| &&
               r.nodeIds.value == Table(regs, TableOffsets(l, r.target))[start..start + r.count]
    ensures Walked(regs, l, regions + [r], r.index + 1)
  {
    hide Enabled, Hashed, TargetOf, HnCount, TableOffsets, Table, IdsOf, Fits, Indexes, First;
    IndexesAppend(regions, r);
    FitsMeans(regs, l, r.index + 1, HNF);
    FitsMeans(regs, l, r.index + 1, HNP);
    forall t
      ensures IdsOf(regions + [r], t) == First(Taken(regs, l, t, r.index + 1), Table(regs, TableOffsets(l, t)))
    {
      IdsOfAppend(regions, r, t);
      if r.nodeIds.Some? && r.target == t {
        SlicesMeet(Table(regs, TableOffsets(l, t)), Taken(regs, l, t, r.index), Taken(regs, l, t, r.index + 1));
      }
    }
  }

  /** A region whose ids run past its table keeps the rest from fitting. */
  lemma Overrun(regs: Registers, l: Layout, i: nat)
    requires i < Entries(l) && !Fits(regs, l, i + 1)
    ensures !Fits(regs, l, Entries(l))
  {
    hide Enabled, Hashed, TargetOf, HnCount, TableOffsets;
    TakenGrows(regs, l, HNF, i + 1, Entries(l));
    TakenGrows(regs, l, HNP, i + 1, Entries(l));
  }

  /** What the next region takes, and whether it fits. */
  lemma NextTakes(regs: Registers, l: Layout, i: nat)
    requires i < Entries(l) && Fits(regs, l, i) && Enabled(regs, l, i)
    ensures Fits(regs, l, i + 1) <==>
            (Hashed(regs, l, i) ==>
              Taken(regs, l, TargetOf(regs, l, i), i) + HnCount(regs, l, i) <= 4 * |TableOffsets(l, TargetOf(regs, l, i))|)
    ensures forall t :: Taken(regs, l, t, i + 1) == Taken(regs, l, t, i)
              + if Hashed(regs, l, i) && t == TargetOf(regs, l, i) then HnCount(regs, l, i) else 0
  {
    hide Enabled, Hashed, TargetOf, HnCount, TableOffsets;
  }

  lemma NoneWalked(regs: Registers, l: Layout)
    ensures Walked(regs, l, [], 0)
  {
    hide Enabled, Hashed, TargetOf, HnCount, TableOffsets, Table;
  }

  /** Reading a hashed region's ids succeeds exactly if they fit, and then the walk goes on. */
  lemma RegionReads(regs: Registers, l: Layout, regions: seq<Region>, i: nat)
    requires i < Entries(l) && Walked(regs, l, regions, i) && Enabled(regs, l, i) && Hashed(regs, l, i)
    ensures var t, n := TargetOf(regs, l, i), HnCount(regs, l, i);
            var ids := ReadIds(regs, TableOffsets(l, t), Taken(regs, l, t, i), n);
            && (ids == None <==> !Fits(regs, l, i + 1))
            && (ids.Some? ==> Walked(regs, l, regions + [Region(i, n, t, ids)], i + 1))
  {
    hide Enabled, Hashed, TargetOf, HnCount, TableOffsets, Table, ReadIds, Taken, IdsOf, Indexes, EnabledBelow, ArrRead, First;
    var t, n := TargetOf(regs, l, i), HnCount(regs, l, i);
    NextTakes(regs, l, i);
    FitsMeans(regs, l, i, t);
    ReadIdsIsSlice(regs, TableOffsets(l, t), Taken(regs, l, t, i), n);
    hide Fits, Walked;
    var ids := ReadIds(regs, TableOffsets(l, t), Taken(regs, l, t, i), n);
    if ids.Some? {
      WalkedPastRegion(regs, l, regions, Region(i, n, t, ids));
    }
  }

  lemma RegionWithoutIds(regs: Registers, l: Layout, regions: seq<Region>, i: nat)
    requires i < Entries(l) && Walked(regs, l, regions, i) && Enabled(regs, l, i) && !Hashed(regs, l, i)
    ensures Walked(regs, l, regions + [Region(i, HnCount(regs, l, i), TargetOf(regs, l, i), None)], i + 1)
  {
    hide Enabled, Hashed, TargetOf, HnCount, TableOffsets, Table, Taken, IdsOf, Indexes, EnabledBelow, First;
    NextTakes(regs, l, i);
    WalkedPastRegion(regs, l, regions, Region(i, HnCount(regs, l, i), TargetOf(regs, l, i), None));
  }

  /**
   The regions in order, up to the first whose node ids run past the end of its table.

   Those of a table, put together, are the start of the table: no entry is skipped, and none
   is used twice, whatever entries are disabled, not hashed, or draw on the other table.
   */
  method HashedRegions(regs: Registers, l: Layout) returns (regions: seq<Region>, complete: bool)
    ensures complete <==> Fits(regs, l, Entries(l))
    ensures complete ==> Walked(regs, l, regions, Entries(l))
    ensures !complete ==> exists n :: 0 <= n < Entries(l) && Walked(regs, l, regions, n) && !Fits(regs, l, n + 1)
  {
    NoneWalked(regs, l);
    hide Enabled, Hashed, TargetOf, HnCount, TableOffsets, Table, ReadIds, Taken, IdsOf, Indexes, Entries, EnabledBelow, ArrRead,
         Walked, IsRegion, First;
    var nextHnf, nextHnp := 0, 0;
    regions := [];
    assert Taken(regs, l, HNF, 0) == 0 && Taken(regs, l, HNP, 0) == 0 by {
      NoneTaken(regs, l);
    }
    for i := 0 to Entries(l)
      invariant nextHnf == Taken(regs, l, HNF, i) && nextHnp == Taken(regs, l, HNP, i)
      invariant Walked(regs, l, regions, i)
    {
      if Enabled(regs, l, i) {
        WalkedFits(regs, l, regions, i);
        NextTakes(regs, l, i);
        var target, count := TargetOf(regs, l, i), HnCount(regs, l, i);
        var r := Region(i, count, target, None);
        if Hashed(regs, l, i) {
          var ids := ReadIds(regs, TableOffsets(l, target), if target == HNF then nextHnf else nextHnp, count);
          RegionReads(regs, l, regions, i);
          if ids == None {
            Overrun(regs, l, i);
            return regions, false;
          }
          r := r.(nodeIds := ids);
          if target == HNF {
            nextHnf := nextHnf + count;
          } else {
            nextHnp := nextHnp + count;
          }
        } else {
          RegionWithoutIds(regs, l, regions, i);
        }
        regions := regions + [r];
      } else {
        WalkedPastDisabled(regs, l, regions, i);
        DisabledTakesNone(regs, l, i);
      }
    }
    WalkedFits(regs, l, regions, Entries(l));
    return regions, true;
  }

  lemma WalkedFits(regs: Registers, l: Layout, regions: seq<Region>, n: nat)
    requires n <= Entries(l) && Walked(regs, l, regions, n)
    ensures Fits(regs, l, n)
  {
    hide Fits, Taken, IdsOf, Indexes, EnabledBelow, IsRegion;
  }

  lemma NoneTaken(regs: Registers, l: Layout)
    ensures forall t :: Taken(regs, l, t, 0) == 0
  {
  }

  lemma DisabledTakesNone(regs: Registers, l: Layout, i: nat)
    requires i < Entries(l) && !Enabled(regs, l, i)
    ensures forall t :: Taken(regs, l, t, i + 1) == Taken(regs, l, t, i)
  {
    hide Enabled, Hashed, TargetOf, HnCount;
  }

  lemma FitsMeans(regs: Registers, l: Layout, n: nat, t: Target)
    requires n <= Entries(l) && Fits(regs, l, n)
    ensures Taken(regs, l, t, n) <= 4 * |TableOffsets(l, t)|
  {
    hide TableOffsets, Taken;
  }

  // ---------------------------------------------------------------- a table that software wrote

  /** Four node ids in a register. */
  function PackFour(ids: seq<nat>): nat
    requires |ids| == 4
  {
    ids[0] + ids[1] * Pow2(12) + ids[2] * Pow2(24) + ids[3] * Pow2(36)
  }

  /** Is a table in the registers, four ids in each? */
  ghost predicate Holds(regs: Registers, offs: seq<nat>, ids: seq<nat>) {
    |ids| == 4 * |offs| && (forall k :: 0 <= k < |ids| ==> ids[k] < Pow2(12)) &&
    forall j :: 0 <= j < |offs| ==> regs(offs[j]) == PackFour(ids[4 * j..4 * j + 4])
  }

  lemma Twelves()
    ensures Pow2(0) == 1 && Pow2(12) == 4096 && Pow2(24) == 16777216 && Pow2(36) == 68719476736
  {
    assert Pow2(4) == 16;
    Pow2Sum(4, 4);
    Pow2Sum(8, 4);
    Pow2Sum(12, 12);
    Pow2Sum(24, 12);
  }

  lemma FieldsOfFour(a: nat, b: nat, c: nat, d: nat, v: nat)
    requires a < 4096 && b < 4096 && c < 4096 && d < 4096
    requires v == a + b * 4096 + c * 16777216 + d * 68719476736
    ensures v % 4096 == a && v / 4096 % 4096 == b && v / 16777216 % 4096 == c && v / 68719476736 % 4096 == d
  {
    assert v / 4096 == b + c * 4096 + d * 16777216;
    assert v / 16777216 == c + d * 4096;
    assert v / 68719476736 == d;
  }

  /** Reading a table gives the ids that it was packed from. */
  lemma PackedTableReads(regs: Registers, offs: seq<nat>, ids: seq<nat>)
    requires Holds(regs, offs, ids)
    ensures Table(regs, offs) == ids
  {
    forall ix | 0 <= ix < |ids|
      ensures Table(regs, offs)[ix] == ids[ix]
    {
      PackedEntryReads(regs, offs, ids, ix);
    }
  }

  lemma PackedEntryReads(regs: Registers, offs: seq<nat>, ids: seq<nat>, ix: nat)
    requires Holds(regs, offs, ids) && ix < |ids|
    ensures ArrRead(regs, offs, 12, ix, 4) == Some(ids[ix])
  {
    Twelves();
    var j := ix / 4;
    var four := ids[4 * j..4 * j + 4];
    var v := regs(offs[j]);
    assert v == PackFour(four);
    assert forall k :: 0 <= k < 4 ==> four[k] == ids[4 * j + k] && four[k] < Pow2(12);
    hide Pow2;
    FieldsOfFour(four[0], four[1], four[2], four[3], v);
  }

  /** The node ids that the regions get from a table are the first ones written to it, each once and in order. */
  lemma ProgrammedIdsComeBack(regs: Registers, l: Layout, t: Target, ids: seq<nat>, regions: seq<Region>)
    requires Walked(regs, l, regions, Entries(l)) && Holds(regs, TableOffsets(l, t), ids)
    ensures Taken(regs, l, t, Entries(l)) <= |ids| && IdsOf(regions, t) == ids[..Taken(regs, l, t, Entries(l))]
  {
    hide TableOffsets, Taken, IdsOf, Indexes, EnabledBelow, IsRegion, Entries;
    PackedTableReads(regs, TableOffsets(l, t), ids);
    hide Table, Holds;
    FitsMeans(regs, l, Entries(l), t);
  }
}
