/**
 Saving and loading meshes and systems: crosspoints in id order, ports in number order,
 and the system-wide map of CPUs.
 */
module SystemJson {
  import opened Options
  import opened TopologyJson
  import NodeIds

  datatype Topology = Topology(cmns: seq<Cmn>, cpus: CpuMap)

  // ---------------------------------------------------------------- how many ports an XP may have

  const LINKS: seq<nat> := [4, 3, 3, 2, 3, 2, 2, 1, 3, 2, 2, 1, 2, 1, 1, 0]
  const MAX_PORTS: seq<nat> := [4, 4, 4, 3, 2]

  /** Which edges of the mesh an XP lies on, one bit an edge. */
  function Position(dimX: nat, dimY: nat, x: nat, y: nat): nat {
    (if x == 0 then 1 else 0) + (if x + 1 == dimX then 2 else 0)
    + (if y == 0 then 4 else 0) + (if y + 1 == dimY then 8 else 0)
  }

  function LinkCount(dimX: nat, dimY: nat, x: nat, y: nat): nat {
    LINKS[Position(dimX, dimY, x, y)]
  }

  /** The mesh links that leave an XP: north, east, west, south. */
  function LinksOf(dimX: nat, dimY: nat, x: nat, y: nat): string {
    (if y + 1 < dimY then "n" else "") + (if x + 1 < dimX then "e" else "")
    + (if x > 0 then "w" else "") + (if y > 0 then "s" else "")
  }

  /** On the mesh, the table agrees with the links themselves. */
  lemma LinkTableCounts(dimX: nat, dimY: nat, x: nat, y: nat)
    requires x < dimX && y < dimY
    ensures LinkCount(dimX, dimY, x, y) == |LinksOf(dimX, dimY, x, y)|
  {
  }

  function MaxPorts(c: Cmn, x: nat, y: nat): nat {
    var n := LinkCount(c.dimX, c.dimY, x, y);
    if n < 5 then MAX_PORTS[n] else 0
  }

  /** An XP and its links have six connections, and there are at most four ports. */
  lemma PortLimitIs(c: Cmn, x: nat, y: nat)
    requires x < c.dimX && y < c.dimY
    ensures var links := |LinksOf(c.dimX, c.dimY, x, y)|;
            MaxPorts(c, x, y) == if links <= 2 then 4 else 6 - links
  {
    LinkTableCounts(c.dimX, c.dimY, x, y);
  }

  // ---------------------------------------------------------------- loading

  function XpId(c: Cmn, x: nat, y: nat): nat {
    NodeIds.XyId(NodeIds.CoordBits(c.dimX, c.dimY), x, y)
  }

  function At(c: Cmn, cmnSeq: nat, id: nat, nPorts: nat, number: nat): PortAt {
    PortAt(c.isCmn600, cmnSeq, id, number, nPorts, NodeIds.BaseId(id, nPorts, number))
  }

  /** Register an XP that has no ports in use yet. */
  function CreateXp(c: Cmn, j: JXp): Result<Cmn, LoadError> {
    var n := if j.nPorts.Some? then j.nPorts.value else |j.ports|;
    if j.id != XpId(c, j.x, j.y) then Err(WrongXpId)
    else if n > MaxPorts(c, j.x, j.y) then Err(TooManyPorts)
    else if j.id in c.xps then Err(DuplicateXp)
    else if n > 2 && c.extraPorts == Some(false) then Err(ExtraPortsDenied)
    else
      var xp := Xp(j.x, j.y, n, j.logicalId, j.dtc, j.skipped, j.mcsEast, j.mcsNorth, map[]);
      Ok(c.(xps := c.xps[j.id := xp], extraPorts := if n > 2 then Some(true) else c.extraPorts))
  }

  /** When an XP of a document can be created. */
  lemma CreateXpIff(c: Cmn, j: JXp)
    requires j.x < c.dimX && j.y < c.dimY
    ensures var n, links := (if j.nPorts.Some? then j.nPorts.value else |j.ports|), |LinksOf(c.dimX, c.dimY, j.x, j.y)|;
            CreateXp(c, j).Ok? <==>
            && j.id == XpId(c, j.x, j.y) && j.id !in c.xps
            && n <= 4 && n + links <= 6
            && (n <= 2 || c.extraPorts != Some(false))
  {
    PortLimitIs(c, j.x, j.y);
    LinksAreFew(c.dimX, c.dimY, j.x, j.y);
    hide LinksOf, MaxPorts, XpId;
  }

  lemma LinksAreFew(dimX: nat, dimY: nat, x: nat, y: nat)
    ensures |LinksOf(dimX, dimY, x, y)| <= 4
  {
  }

  /** Without a count, an XP has as many ports as are listed. */
  lemma MissingPortCount(c: Cmn, j: JXp)
    ensures CreateXp(c, j.(nPorts := None)) == CreateXp(c, j.(nPorts := Some(|j.ports|)))
  {
  }

  type Ports = map<nat, Port>

  /** Ports without a type are old files' unconnected ports. */
  function AddPorts(c: Cmn, cmnSeq: nat, id: nat, nPorts: nat, pc: (Ports, CpuMap), l: seq<JPort>)
    : Result<(Ports, CpuMap), LoadError>
    decreases |l|
  {
    if l == [] then Ok(pc)
    else if l[0].kind == None then AddPorts(c, cmnSeq, id, nPorts, pc, l[1..])
    else
      match LoadPort(At(c, cmnSeq, id, nPorts, l[0].port), pc.1, l[0])
      case Err(e) => Err(e)
      case Ok(q) => AddPorts(c, cmnSeq, id, nPorts, (pc.0[l[0].port := q.0], q.1), l[1..])
  }

  /** An entry without a type adds nothing. */
  lemma UntypedPortIsSkipped(c: Cmn, cmnSeq: nat, id: nat, nPorts: nat, pc: (Ports, CpuMap), j: JPort, rest: seq<JPort>)
    requires j.kind == None
    ensures AddPorts(c, cmnSeq, id, nPorts, pc, [j] + rest) == AddPorts(c, cmnSeq, id, nPorts, pc, rest)
  {
    assert ([j] + rest)[1..] == rest;
  }

  type Mesh = (Cmn, CpuMap)

  function LoadXp(cmnSeq: nat, m: Mesh, j: JXp): Result<Mesh, LoadError> {
    match CreateXp(m.0, j)
    case Err(e) => Err(e)
    case Ok(c) =>
      var xp := c.xps[j.id];
      match AddPorts(c, cmnSeq, j.id, xp.nPorts, (map[], m.1), j.ports)
      case Err(e) => Err(e)
      case Ok(pc) => Ok((c.(xps := c.xps[j.id := xp.(ports := pc.0)]), pc.1))
  }

  function LoadXps(cmnSeq: nat, m: Mesh, l: seq<JXp>): Result<Mesh, LoadError>
    decreases |l|
  {
    if l == [] then Ok(m)
    else
      match LoadXp(cmnSeq, m, l[0])
      case Err(e) => Err(e)
      case Ok(q) => LoadXps(cmnSeq, q, l[1..])
  }

  /** A mesh becomes the next one of the system. */
  function LoadCmn(s: Topology, j: JCmn): Result<Topology, LoadError> {
    match LoadXps(|s.cmns|, (Cmn(j.about, j.isCmn600, j.dimX, j.dimY, j.extraPorts, map[]), s.cpus), j.xps)
    case Err(e) => Err(e)
    case Ok(m) => Ok(Topology(s.cmns + [m.0], m.1))
  }

  function LoadCmns(s: Topology, l: seq<JCmn>): Result<Topology, LoadError>
    decreases |l|
  {
    if l == [] then Ok(s)
    else
      match LoadCmn(s, l[0])
      case Err(e) => Err(e)
      case Ok(q) => LoadCmns(q, l[1..])
  }

  const EMPTY := Topology([], map[])

  // ---------------------------------------------------------------- saving

  function SavePorts(c: Cmn, cmnSeq: nat, id: nat, xp: Xp, n: nat): seq<JPort> {
    if n == 0 then []
    else SavePorts(c, cmnSeq, id, xp, n - 1)
         + (if n - 1 in xp.ports then [SavePort(At(c, cmnSeq, id, xp.nPorts, n - 1), xp.ports[n - 1])] else [])
  }

  function SaveXp(c: Cmn, cmnSeq: nat, id: nat, xp: Xp): JXp {
    JXp(xp.x, xp.y, Some(xp.nPorts), id, xp.logicalId, xp.dtc, xp.skipped, NonZero(xp.mcsEast), NonZero(xp.mcsNorth),
        SavePorts(c, cmnSeq, id, xp, 4))
  }

  /** The XPs with ids below n, in id order. */
  function SaveXps(c: Cmn, cmnSeq: nat, n: nat): seq<JXp> {
    if n == 0 then []
    else SaveXps(c, cmnSeq, n - 1) + (if n - 1 in c.xps then [SaveXp(c, cmnSeq, n - 1, c.xps[n - 1])] else [])
  }

  /** A number above all members of a set. */
  ghost function Above(s: set<nat>): (n: nat)
    ensures forall k :: k in s ==> k < n
  {
    if s == {} then 0
    else
      var k :| k in s;
      var rest := Above(s - {k});
      assert s == (s - {k}) + {k};
      if k < rest then rest else k + 1
  }

  ghost function SaveCmn(c: Cmn, cmnSeq: nat): JCmn {
    JCmn(c.about, c.isCmn600, c.dimX, c.dimY, c.extraPorts, SaveXps(c, cmnSeq, Above(c.xps.Keys)))
  }

  ghost function SaveSystem(s: Topology): seq<JCmn> {
    seq(|s.cmns|, i requires 0 <= i < |s.cmns| => SaveCmn(s.cmns[i], i))
  }

  // ---------------------------------------------------------------- what a system is, and what comes back

  ghost predicate ValidXp(c: Cmn, cmnSeq: nat, id: nat, xp: Xp) {
    id == XpId(c, xp.x, xp.y) && xp.nPorts <= MaxPorts(c, xp.x, xp.y) && (xp.nPorts > 2 ==> c.extraPorts == Some(true)) &&
    forall pn :: pn in xp.ports ==> ValidPort(At(c, cmnSeq, id, xp.nPorts, pn), xp.ports[pn])
  }

  ghost predicate ValidCmn(c: Cmn, cmnSeq: nat) {
    forall id :: id in c.xps ==> ValidXp(c, cmnSeq, id, c.xps[id])
  }

  /** The CPUs of a port's slots are the ones that the system has there, and no slot lists one twice. */
  ghost predicate CpusAgree(all: CpuMap, at: PortAt, p: Port) {
    (forall dn, i :: dn in p.slots && 0 <= i < |p.slots[dn].cpus| ==>
      var c := p.slots[dn].cpus[i];
      c.number in all && all[c.number] == Place(at.cmnSeq, at.xp, at.number, dn, c.lpid)) &&
    (forall dn, i, j :: dn in p.slots && 0 <= i < j < |p.slots[dn].cpus| ==>
      p.slots[dn].cpus[i].number != p.slots[dn].cpus[j].number) &&
    forall n :: n in all && all[n].cmnSeq == at.cmnSeq && all[n].xp == at.xp && all[n].port == at.number ==>
      all[n].device in p.slots && Cpu(n, all[n].lpid) in p.slots[all[n].device].cpus
  }

  ghost predicate Valid(s: Topology) {
    (forall k :: 0 <= k < |s.cmns| ==> ValidCmn(s.cmns[k], k)) &&
    (forall k, id, pn :: 0 <= k < |s.cmns| && id in s.cmns[k].xps && pn in s.cmns[k].xps[id].ports ==>
      CpusAgree(s.cpus, At(s.cmns[k], k, id, s.cmns[k].xps[id].nPorts, pn), s.cmns[k].xps[id].ports[pn])) &&
    forall n :: n in s.cpus ==> IsPort(s, s.cpus[n])
  }

  predicate IsPort(s: Topology, at: Place) {
    at.cmnSeq < |s.cmns| && at.xp in s.cmns[at.cmnSeq].xps && at.port in s.cmns[at.cmnSeq].xps[at.xp].ports
  }

  function NormalXp(xp: Xp): Xp {
    xp.(mcsEast := NonZero(xp.mcsEast), mcsNorth := NonZero(xp.mcsNorth),
        ports := map pn | pn in xp.ports :: NormalPort(xp.ports[pn]))
  }

  function NormalCmn(c: Cmn): Cmn {
    c.(xps := map id | id in c.xps :: NormalXp(c.xps[id]))
  }

  function Normal(s: Topology): Topology {
    Topology(seq(|s.cmns|, i requires 0 <= i < |s.cmns| => NormalCmn(s.cmns[i])), s.cpus)
  }

  // ---------------------------------------------------------------- CPUs of the ports before one

  predicate Before(at: Place, cmnSeq: nat, id: nat, port: nat) {
    at.cmnSeq < cmnSeq || (at.cmnSeq == cmnSeq && (at.xp < id || (at.xp == id && at.port < port)))
  }

  /** The part of the CPU map that is loaded once the ports before one are. */
  function Upto(all: CpuMap, cmnSeq: nat, id: nat, port: nat): CpuMap {
    map n | n in all && Before(all[n], cmnSeq, id, port) :: all[n]
  }

  /** Attached CPUs at their places, on device slots in a range, each once. */
  ghost predicate Placed(all: CpuMap, at: PortAt, l: seq<JCpu>, first: nat, beyond: nat) {
    (forall i :: 0 <= i < |l| ==>
      l[i].cpu in all && all[l[i].cpu] == Entry(at, l[i]) && first <= Entry(at, l[i]).device < beyond) &&
    forall i, j :: 0 <= i < j < |l| ==> l[i].cpu != l[j].cpu
  }

  ghost predicate OnPort(all: CpuMap, at: PortAt, n: nat) {
    n in all && all[n].cmnSeq == at.cmnSeq && all[n].xp == at.xp && all[n].port == at.number
  }

  ghost predicate Lists(l: seq<JCpu>, n: nat) {
    exists i :: 0 <= i < |l| && l[i].cpu == n
  }

  lemma SlotCpusPlaced(all: CpuMap, at: PortAt, p: Port, dn: nat)
    requires CpusAgree(all, at, p)
    ensures Placed(all, at, JCpus(at, dn, SlotOf(p, dn).cpus), dn, dn + 1)
  {
    var cpus := SlotOf(p, dn).cpus;
    var l := JCpus(at, dn, cpus);
    assert forall i :: 0 <= i < |l| ==> l[i].cpu == cpus[i].number;
  }

  lemma SlotCpusListed(all: CpuMap, at: PortAt, p: Port, n: nat)
    requires CpusAgree(all, at, p) && OnPort(all, at, n)
    ensures Lists(JCpus(at, all[n].device, SlotOf(p, all[n].device).cpus), n)
  {
    var cpus := SlotOf(p, all[n].device).cpus;
    var i :| 0 <= i < |cpus| && cpus[i] == Cpu(n, all[n].lpid);
    assert JCpus(at, all[n].device, cpus)[i].cpu == n;
  }

  lemma PlacedConcat(all: CpuMap, at: PortAt, a: seq<JCpu>, b: seq<JCpu>, m: nat)
    requires Placed(all, at, a, 0, m) && Placed(all, at, b, m, m + 1)
    ensures Placed(all, at, a + b, 0, m + 1)
  {
    hide Entry;
    forall i, j | 0 <= i < |a| && 0 <= j < |b|
      ensures a[i].cpu != b[j].cpu
    {
      assert Entry(at, a[i]).device < Entry(at, b[j]).device;
    }
  }

  lemma ListsConcat(a: seq<JCpu>, b: seq<JCpu>, n: nat)
    ensures Lists(a + b, n) == (Lists(a, n) || Lists(b, n))
  {
    if Lists(a, n) {
      var i :| 0 <= i < |a| && a[i].cpu == n;
      assert (a + b)[i].cpu == n;
    } else if Lists(b, n) {
      var i :| 0 <= i < |b| && b[i].cpu == n;
      assert (a + b)[|a| + i].cpu == n;
    }
  }

  /** The attached CPUs that a port saves are its slots' CPUs, at their places, each once. */
  lemma {:induction false} SavedCpus(all: CpuMap, at: PortAt, p: Port, n: nat)
    requires CpusAgree(all, at, p)
    ensures Placed(all, at, SaveCpus(at, p, n), 0, n)
    ensures forall k :: OnPort(all, at, k) && all[k].device < n ==> Lists(SaveCpus(at, p, n), k)
  {
    if n > 0 {
      var before, more := SaveCpus(at, p, n - 1), JCpus(at, n - 1, SlotOf(p, n - 1).cpus);
      SavedCpus(all, at, p, n - 1);
      SlotCpusPlaced(all, at, p, n - 1);
      hide *;
      PlacedConcat(all, at, before, more, n - 1);
      assert SaveCpus(at, p, n) == before + more by {
        SaveCpusStep(at, p, n);
      }
      forall k | OnPort(all, at, k) && all[k].device < n
        ensures Lists(before + more, k)
      {
        ListedBySlot(all, at, p, n, before, k);
      }
    }
  }

  lemma ListedBySlot(all: CpuMap, at: PortAt, p: Port, n: nat, before: seq<JCpu>, k: nat)
    requires CpusAgree(all, at, p) && OnPort(all, at, k) && all[k].device < n
    requires all[k].device < n - 1 ==> Lists(before, k)
    ensures Lists(before + JCpus(at, n - 1, SlotOf(p, n - 1).cpus), k)
  {
    hide CpusAgree, JCpus, SlotOf, Lists;
    ListsConcat(before, JCpus(at, n - 1, SlotOf(p, n - 1).cpus), k);
    if all[k].device == n - 1 {
      SlotCpusListed(all, at, p, k);
    }
  }

  lemma SaveCpusStep(at: PortAt, p: Port, n: nat)
    requires n > 0
    ensures SaveCpus(at, p, n) == SaveCpus(at, p, n - 1) + JCpus(at, n - 1, SlotOf(p, n - 1).cpus)
  {
  }

  lemma {:induction false} EntriesArePart(all: CpuMap, at: PortAt, l: seq<JCpu>, n: nat)
    requires Placed(all, at, l, 0, n)
    ensures forall k :: k in CpuEntries(at, l) ==> k in all && CpuEntries(at, l)[k] == all[k]
    decreases |l|
  {
    hide Entry;
    if l != [] {
      assert l[0].cpu in all;
      EntriesArePart(all, at, l[1..], n);
    }
  }

  lemma DeviceBelowFour(all: CpuMap, at: PortAt, p: Port, n: nat)
    requires CpusAgree(all, at, p) && ValidPort(at, p) && OnPort(all, at, n)
    ensures all[n].device < 4
  {
    hide ValidNode, NodeIds.IsValidId;
  }

  lemma PlacedAreOnPort(all: CpuMap, at: PortAt, l: seq<JCpu>, n: nat)
    requires Placed(all, at, l, 0, n)
    ensures forall k :: Lists(l, k) ==> OnPort(all, at, k)
  {
  }

  lemma EntriesOnPort(all: CpuMap, at: PortAt, p: Port)
    requires CpusAgree(all, at, p) && ValidPort(at, p)
    ensures var e := CpuEntries(at, SaveCpus(at, p, 4));
            forall k :: (k in e <==> OnPort(all, at, k)) && (k in e ==> e[k] == all[k])
  {
    hide *;
    var l := SaveCpus(at, p, 4);
    SavedCpus(all, at, p, 4);
    EntriesArePart(all, at, l, 4);
    EntriesKeys(at, l);
    PlacedAreOnPort(all, at, l, 4);
    forall k
      ensures k in CpuEntries(at, l) <==> OnPort(all, at, k)
    {
      assert Lists(l, k) == exists i :: 0 <= i < |l| && l[i].cpu == k by {
        ListsIs(l, k);
      }
      if OnPort(all, at, k) {
        DeviceBelowFour(all, at, p, k);
      }
    }
    forall k | k in CpuEntries(at, l)
      ensures k in all && CpuEntries(at, l)[k] == all[k]
    {
    }
  }

  lemma ListsIs(l: seq<JCpu>, k: nat)
    ensures Lists(l, k) == exists i :: 0 <= i < |l| && l[i].cpu == k
  {
  }

  lemma PlacedAreFresh(all: CpuMap, at: PortAt, l: seq<JCpu>, n: nat)
    requires Placed(all, at, l, 0, n)
    ensures Fresh(Upto(all, at.cmnSeq, at.xp, at.number), l)
  {
  }

  lemma UptoPlus(all: CpuMap, at: PortAt, e: CpuMap)
    requires forall k :: (k in e <==> OnPort(all, at, k)) && (k in e ==> k in all && e[k] == all[k])
    ensures Upto(all, at.cmnSeq, at.xp, at.number) + e == Upto(all, at.cmnSeq, at.xp, at.number + 1)
  {
    var before, after := Upto(all, at.cmnSeq, at.xp, at.number), Upto(all, at.cmnSeq, at.xp, at.number + 1);
    assert forall k :: k in after <==> k in before || OnPort(all, at, k);
  }

  /** Loading a port's CPUs takes the CPU map from what is before the port to what is before the next. */
  lemma UptoNextPort(all: CpuMap, at: PortAt, p: Port)
    requires CpusAgree(all, at, p) && ValidPort(at, p)
    ensures Fresh(Upto(all, at.cmnSeq, at.xp, at.number), SaveCpus(at, p, 4))
    ensures Upto(all, at.cmnSeq, at.xp, at.number) + CpuEntries(at, SaveCpus(at, p, 4))
         == Upto(all, at.cmnSeq, at.xp, at.number + 1)
  {
    SavedCpus(all, at, p, 4);
    PlacedAreFresh(all, at, SaveCpus(at, p, 4), 4);
    EntriesOnPort(all, at, p);
    hide CpuEntries, SaveCpus, Upto, CpusAgree, ValidPort;
    UptoPlus(all, at, CpuEntries(at, SaveCpus(at, p, 4)));
  }

  /** Where the system has no port, nothing is added. */
  lemma UptoNoPort(s: Topology, cmnSeq: nat, id: nat, port: nat)
    requires Valid(s) && !IsPort(s, Place(cmnSeq, id, port, 0, 0))
    ensures Upto(s.cpus, cmnSeq, id, port + 1) == Upto(s.cpus, cmnSeq, id, port)
  {
    hide ValidCmn, CpusAgree;
  }

  /** No port has a number above 3. */
  lemma UptoNextXp(s: Topology, cmnSeq: nat, id: nat)
    requires Valid(s)
    ensures Upto(s.cpus, cmnSeq, id, 4) == Upto(s.cpus, cmnSeq, id + 1, 0)
  {
    forall n | n in s.cpus
      ensures s.cpus[n].port < 4
    {
      PortNumbers(s, s.cpus[n]);
    }
    hide Valid;
  }

  lemma PortNumbers(s: Topology, at: Place)
    requires Valid(s) && IsPort(s, at)
    ensures at.port <= 3
  {
    hide CpusAgree, ValidNode, XpId, MaxPorts, NodeIds.BaseId, NodeIds.IsValidId;
    var c := s.cmns[at.cmnSeq];
    assert ValidXp(c, at.cmnSeq, at.xp, c.xps[at.xp]);
  }

  lemma UptoNoXp(s: Topology, cmnSeq: nat, id: nat)
    requires Valid(s) && (cmnSeq < |s.cmns| ==> id !in s.cmns[cmnSeq].xps)
    ensures Upto(s.cpus, cmnSeq, id + 1, 0) == Upto(s.cpus, cmnSeq, id, 0)
  {
    hide ValidCmn, CpusAgree;
  }

  lemma UptoNextCmn(s: Topology, cmnSeq: nat, bound: nat)
    requires Valid(s) && cmnSeq < |s.cmns| && forall id :: id in s.cmns[cmnSeq].xps ==> id < bound
    ensures Upto(s.cpus, cmnSeq, bound, 0) == Upto(s.cpus, cmnSeq + 1, 0, 0)
  {
    hide ValidCmn, CpusAgree;
  }

  lemma UptoEnds(s: Topology)
    requires Valid(s)
    ensures Upto(s.cpus, 0, 0, 0) == map[] && Upto(s.cpus, |s.cmns|, 0, 0) == s.cpus
  {
    hide ValidCmn, CpusAgree;
  }

  // ---------------------------------------------------------------- crosspoints: round trip

  lemma {:induction false} AddPortsConcat(c: Cmn, cmnSeq: nat, id: nat, nPorts: nat, pc: (Ports, CpuMap), a: seq<JPort>, b: seq<JPort>)
    requires AddPorts(c, cmnSeq, id, nPorts, pc, a).Ok?
    ensures AddPorts(c, cmnSeq, id, nPorts, pc, a + b)
         == AddPorts(c, cmnSeq, id, nPorts, AddPorts(c, cmnSeq, id, nPorts, pc, a).value, b)
    decreases |a|
  {
    hide LoadPort, At;
    if a == [] {
      assert a + b == b;
    } else {
      assert (a + b)[1..] == a[1..] + b;
      if a[0].kind == None {
        AddPortsConcat(c, cmnSeq, id, nPorts, pc, a[1..], b);
      } else {
        var q := LoadPort(At(c, cmnSeq, id, nPorts, a[0].port), pc.1, a[0]).value;
        AddPortsConcat(c, cmnSeq, id, nPorts, (pc.0[a[0].port := q.0], q.1), a[1..], b);
      }
    }
  }

  /** The ports below n, as they come back. */
  function NormalPorts(xp: Xp, n: nat): Ports {
    map pn | pn in xp.ports && pn < n :: NormalPort(xp.ports[pn])
  }

  lemma NormalPortsStep(xp: Xp, n: nat)
    requires n > 0
    ensures NormalPorts(xp, 0) == map[]
    ensures NormalPorts(xp, n) ==
            if n - 1 in xp.ports then NormalPorts(xp, n - 1)[n - 1 := NormalPort(xp.ports[n - 1])] else NormalPorts(xp, n - 1)
  {
    hide NormalPort;
  }

  lemma ValidPortOf(s: Topology, k: nat, id: nat, pn: nat)
    requires Valid(s) && IsPort(s, Place(k, id, pn, 0, 0))
    ensures var xp := s.cmns[k].xps[id];
            ValidPort(At(s.cmns[k], k, id, xp.nPorts, pn), xp.ports[pn])
            && CpusAgree(s.cpus, At(s.cmns[k], k, id, xp.nPorts, pn), xp.ports[pn])
  {
    hide CpusAgree, ValidPort, At, XpId, MaxPorts;
    assert ValidXp(s.cmns[k], k, id, s.cmns[k].xps[id]);
  }

  lemma AddOnePort(c: Cmn, cmnSeq: nat, id: nat, nPorts: nat, pc: (Ports, CpuMap), j: JPort)
    requires j.kind.Some?
    ensures AddPorts(c, cmnSeq, id, nPorts, pc, [j]) ==
            match LoadPort(At(c, cmnSeq, id, nPorts, j.port), pc.1, j)
            case Err(e) => Err(e)
            case Ok(q) => Ok((pc.0[j.port := q.0], q.1))
  {
    hide LoadPort, At;
    assert [j][1..] == [];
  }

  lemma AtIs(c: Cmn, d: Cmn, k: nat, id: nat, nPorts: nat, pn: nat)
    requires c.isCmn600 == d.isCmn600
    ensures At(c, k, id, nPorts, pn) == At(d, k, id, nPorts, pn)
    ensures At(c, k, id, nPorts, pn).cmnSeq == k && At(c, k, id, nPorts, pn).xp == id && At(c, k, id, nPorts, pn).number == pn
  {
    hide NodeIds.BaseId;
  }

  lemma SavePortHas(at: PortAt, p: Port)
    ensures SavePort(at, p).kind == Some(p.kind) && SavePort(at, p).port == at.number
  {
    hide SaveNodes, SaveSlots, SaveCpus;
  }

  /** One saved port loads, and takes the CPU map on to the next port. */
  lemma LoadSavedPort(all: CpuMap, c: Cmn, k: nat, id: nat, nPorts: nat, pn: nat, p: Port, ports: Ports)
    requires CpusAgree(all, At(c, k, id, nPorts, pn), p) && ValidPort(At(c, k, id, nPorts, pn), p)
    ensures AddPorts(c, k, id, nPorts, (ports, Upto(all, k, id, pn)), [SavePort(At(c, k, id, nPorts, pn), p)])
         == Ok((ports[pn := NormalPort(p)], Upto(all, k, id, pn + 1)))
  {
    hide *;
    var at := At(c, k, id, nPorts, pn);
    AtIs(c, c, k, id, nPorts, pn);
    SavePortHas(at, p);
    AddOnePort(c, k, id, nPorts, (ports, Upto(all, k, id, pn)), SavePort(at, p));
    UptoNextPort(all, at, p);
    PortRoundTrip(at, p, Upto(all, k, id, pn));
  }

  lemma {:induction false} LoadSavedPorts(s: Topology, k: nat, id: nat, n: nat, c: Cmn)
    requires Valid(s) && k < |s.cmns| && id in s.cmns[k].xps && c.isCmn600 == s.cmns[k].isCmn600
    ensures var xp := s.cmns[k].xps[id];
            AddPorts(c, k, id, xp.nPorts, (map[], Upto(s.cpus, k, id, 0)), SavePorts(s.cmns[k], k, id, xp, n))
            == Ok((NormalPorts(xp, n), Upto(s.cpus, k, id, n)))
  {
    hide Valid, Upto, NormalPorts, SavePort, LoadPort, At;
    var xp := s.cmns[k].xps[id];
    if n == 0 {
      NormalPortsStep(xp, 1);
    } else {
      LoadSavedPorts(s, k, id, n - 1, c);
      NormalPortsStep(xp, n);
      if n - 1 in xp.ports {
        var more := [SavePort(At(s.cmns[k], k, id, xp.nPorts, n - 1), xp.ports[n - 1])];
        hide AddPorts;
        AddPortsConcat(c, k, id, xp.nPorts, (map[], Upto(s.cpus, k, id, 0)), SavePorts(s.cmns[k], k, id, xp, n - 1), more);
        ValidPortOf(s, k, id, n - 1);
        AtIs(s.cmns[k], c, k, id, xp.nPorts, n - 1);
        LoadSavedPort(s.cpus, c, k, id, xp.nPorts, n - 1, xp.ports[n - 1], NormalPorts(xp, n - 1));
      } else {
        UptoNoPort(s, k, id, n - 1);
        assert SavePorts(s.cmns[k], k, id, xp, n) == SavePorts(s.cmns[k], k, id, xp, n - 1);
      }
    }
  }

  /** A mesh being loaded: what its creation fixed is what the saved mesh has. */
  predicate SameMesh(c: Cmn, d: Cmn) {
    c.isCmn600 == d.isCmn600 && c.dimX == d.dimX && c.dimY == d.dimY && c.extraPorts == d.extraPorts
  }

  lemma NormalPortsAll(s: Topology, k: nat, id: nat)
    requires Valid(s) && k < |s.cmns| && id in s.cmns[k].xps
    ensures NormalPorts(s.cmns[k].xps[id], 4) == NormalXp(s.cmns[k].xps[id]).ports
  {
    var xp := s.cmns[k].xps[id];
    forall pn | pn in xp.ports
      ensures pn < 4
    {
      PortNumbers(s, Place(k, id, pn, 0, 0));
    }
    hide Valid, NormalPort;
  }

  lemma CreateSavedXp(s: Topology, k: nat, id: nat, c: Cmn)
    requires Valid(s) && k < |s.cmns| && id in s.cmns[k].xps && SameMesh(c, s.cmns[k]) && id !in c.xps
    ensures var xp := s.cmns[k].xps[id];
            CreateXp(c, SaveXp(s.cmns[k], k, id, xp))
            == Ok(c.(xps := c.xps[id := xp.(mcsEast := NonZero(xp.mcsEast), mcsNorth := NonZero(xp.mcsNorth), ports := map[])]))
  {
    var xp := s.cmns[k].xps[id];
    assert ValidXp(s.cmns[k], k, id, xp);
    hide Valid, ValidPort, NonZero, SavePorts, LinkCount, NodeIds.XyId, NodeIds.CoordBits, NodeIds.BaseId;
    assert MaxPorts(c, xp.x, xp.y) == MaxPorts(s.cmns[k], xp.x, xp.y);
    assert c.(extraPorts := c.extraPorts) == c;
  }

  lemma LoadSavedXp(s: Topology, k: nat, id: nat, c: Cmn)
    requires Valid(s) && k < |s.cmns| && id in s.cmns[k].xps && SameMesh(c, s.cmns[k]) && id !in c.xps
    ensures var xp := s.cmns[k].xps[id];
            LoadXp(k, (c, Upto(s.cpus, k, id, 0)), SaveXp(s.cmns[k], k, id, xp))
            == Ok((c.(xps := c.xps[id := NormalXp(xp)]), Upto(s.cpus, k, id + 1, 0)))
  {
    var xp := s.cmns[k].xps[id];
    var bare := xp.(mcsEast := NonZero(xp.mcsEast), mcsNorth := NonZero(xp.mcsNorth), ports := map[]);
    var created := c.(xps := c.xps[id := bare]);
    CreateSavedXp(s, k, id, c);
    LoadSavedPorts(s, k, id, 4, created);
    NormalPortsAll(s, k, id);
    UptoNextXp(s, k, id);
    PutTwice(c.xps, id, bare, NormalXp(xp));
    hide Valid, Upto, NormalPorts, CreateXp, AddPorts, SavePorts, NonZero, NormalPort;
    assert bare.(ports := NormalXp(xp).ports) == NormalXp(xp);
  }

  // ---------------------------------------------------------------- meshes and systems: round trip

  lemma {:induction false} LoadXpsConcat(k: nat, m: Mesh, a: seq<JXp>, b: seq<JXp>)
    requires LoadXps(k, m, a).Ok?
    ensures LoadXps(k, m, a + b) == LoadXps(k, LoadXps(k, m, a).value, b)
    decreases |a|
  {
    hide LoadXp;
    if a == [] {
      assert a + b == b;
    } else {
      assert (a + b)[1..] == a[1..] + b;
      LoadXpsConcat(k, LoadXp(k, m, a[0]).value, a[1..], b);
    }
  }

  function NormalXps(c: Cmn, n: nat): map<nat, Xp> {
    map id | id in c.xps && id < n :: NormalXp(c.xps[id])
  }

  lemma NormalXpsStep(c: Cmn, n: nat)
    requires n > 0
    ensures NormalXps(c, 0) == map[] && n - 1 !in NormalXps(c, n - 1)
    ensures NormalXps(c, n) ==
            if n - 1 in c.xps then NormalXps(c, n - 1)[n - 1 := NormalXp(c.xps[n - 1])] else NormalXps(c, n - 1)
  {
    hide NormalXp;
  }

  lemma {:induction false} LoadSavedXps(s: Topology, k: nat, c: Cmn, n: nat)
    requires Valid(s) && k < |s.cmns| && SameMesh(c, s.cmns[k]) && c.xps == map[]
    ensures LoadXps(k, (c, Upto(s.cpus, k, 0, 0)), SaveXps(s.cmns[k], k, n))
         == Ok((c.(xps := NormalXps(s.cmns[k], n)), Upto(s.cpus, k, n, 0)))
  {
    hide Valid, Upto, NormalXps, LoadXp, SaveXp;
    if n == 0 {
      NormalXpsStep(s.cmns[k], 1);
      assert c.(xps := map[]) == c;
    } else {
      LoadSavedXps(s, k, c, n - 1);
      NormalXpsStep(s.cmns[k], n);
      var partial := c.(xps := NormalXps(s.cmns[k], n - 1));
      if n - 1 in s.cmns[k].xps {
        var more := [SaveXp(s.cmns[k], k, n - 1, s.cmns[k].xps[n - 1])];
        LoadXpsConcat(k, (c, Upto(s.cpus, k, 0, 0)), SaveXps(s.cmns[k], k, n - 1), more);
        LoadSavedXp(s, k, n - 1, partial);
        assert more[1..] == [];
      } else {
        UptoNoXp(s, k, n - 1);
        assert SaveXps(s.cmns[k], k, n) == SaveXps(s.cmns[k], k, n - 1);
      }
    }
  }

  lemma LoadSavedCmn(s: Topology, t: Topology)
    requires Valid(s) && |t.cmns| < |s.cmns| && t.cpus == Upto(s.cpus, |t.cmns|, 0, 0)
    ensures var k := |t.cmns|;
            LoadCmn(t, SaveCmn(s.cmns[k], k)) == Ok(Topology(t.cmns + [NormalCmn(s.cmns[k])], Upto(s.cpus, k + 1, 0, 0)))
  {
    var k := |t.cmns|;
    var c := s.cmns[k];
    var bound := Above(c.xps.Keys);
    var c0 := Cmn(c.about, c.isCmn600, c.dimX, c.dimY, c.extraPorts, map[]);
    LoadSavedXps(s, k, c0, bound);
    UptoNextCmn(s, k, bound);
    assert NormalXps(c, bound) == NormalCmn(c).xps by {
      hide NormalXp;
    }
    hide Valid, Upto, LoadXps, SaveXps, NormalXps;
    assert c0.(xps := NormalCmn(c).xps) == NormalCmn(c);
  }

  lemma {:induction false} LoadSavedCmns(s: Topology, t: Topology)
    requires Valid(s) && |t.cmns| <= |s.cmns| && t.cpus == Upto(s.cpus, |t.cmns|, 0, 0)
    requires t.cmns == Normal(s).cmns[..|t.cmns|]
    ensures LoadCmns(t, SaveSystem(s)[|t.cmns|..]) == Ok(Normal(s))
    decreases |s.cmns| - |t.cmns|
  {
    var k := |t.cmns|;
    var rest := SaveSystem(s)[k..];
    if k == |s.cmns| {
      UptoEnds(s);
      assert rest == [] && t.cmns == Normal(s).cmns;
    } else {
      var u := Topology(t.cmns + [NormalCmn(s.cmns[k])], Upto(s.cpus, k + 1, 0, 0));
      LoadSavedCmn(s, t);
      RestIs(s, k);
      hide *;
      assert u.cmns == Normal(s).cmns[..k + 1] by {
        assert Normal(s).cmns[..k + 1] == Normal(s).cmns[..k] + [Normal(s).cmns[k]];
      }
      LoadSavedCmns(s, u);
      LoadCmnsStep(t, rest);
    }
  }

  lemma LoadCmnsStep(t: Topology, l: seq<JCmn>)
    requires l != [] && LoadCmn(t, l[0]).Ok?
    ensures LoadCmns(t, l) == LoadCmns(LoadCmn(t, l[0]).value, l[1..])
  {
    hide LoadCmn;
  }

  lemma RestIs(s: Topology, k: nat)
    requires k < |s.cmns|
    ensures |Normal(s).cmns| == |SaveSystem(s)| == |s.cmns| && Normal(s).cmns[k] == NormalCmn(s.cmns[k])
    ensures var rest := SaveSystem(s)[k..];
            rest != [] && rest[0] == SaveCmn(s.cmns[k], k) && rest[1..] == SaveSystem(s)[k + 1..]
  {
    hide SaveCmn, NormalCmn;
  }

  /**
   A saved system loads: no creation check fails, and every mesh, crosspoint, port, device
   slot and node and the CPU map come back, except for zero slice counts, slots that nothing
   describes, and CAL slices of a port without a CAL.
   */
  lemma SystemRoundTrip(s: Topology)
    requires Valid(s)
    ensures LoadCmns(EMPTY, SaveSystem(s)) == Ok(Normal(s))
  {
    UptoEnds(s);
    hide Valid, Upto, SaveCmn, NormalCmn;
    LoadSavedCmns(s, EMPTY);
    assert SaveSystem(s)[0..] == SaveSystem(s);
  }

  /** A count that is not recorded is zero. */
  function Count(n: Option<nat>): nat {
    match n
    case None => 0
    case Some(k) => k
  }

  /** All that a port is comes back: its type and CAL, the CAL's slices, and on each device slot nodes, CPUs and slices. */
  lemma NormalKeepsPort(p: Port, dn: nat)
    ensures var q := NormalPort(p);
            && q.kind == p.kind && q.kindName == p.kindName && q.cal == p.cal && (p.cal != 0 ==> q.ccs == p.ccs)
            && SlotOf(q, dn).nodes == SlotOf(p, dn).nodes && SlotOf(q, dn).cpus == SlotOf(p, dn).cpus
            && Count(SlotOf(q, dn).dcs) == Count(SlotOf(p, dn).dcs)
  {
  }

  /** And of an XP its place, its ports, and the slices of its links. */
  lemma NormalKeepsXp(xp: Xp, pn: nat)
    ensures var q := NormalXp(xp);
            && q.x == xp.x && q.y == xp.y && q.nPorts == xp.nPorts && q.logicalId == xp.logicalId
            && q.dtc == xp.dtc && q.skipped == xp.skipped
            && Count(q.mcsEast) == Count(xp.mcsEast) && Count(q.mcsNorth) == Count(xp.mcsNorth)
            && (pn in q.ports <==> pn in xp.ports) && (pn in xp.ports ==> q.ports[pn] == NormalPort(xp.ports[pn]))
  {
    hide NormalPort;
  }

  /** And of a system its meshes, their XPs, and every CPU's place. */
  lemma NormalKeepsSystem(s: Topology, k: nat, id: nat)
    requires k < |s.cmns|
    ensures Normal(s).cpus == s.cpus && |Normal(s).cmns| == |s.cmns|
    ensures var c, d := s.cmns[k], Normal(s).cmns[k];
            && SameMesh(d, c) && d.about == c.about && d.extraPorts == c.extraPorts && d.dimX == c.dimX && d.dimY == c.dimY
            && (id in d.xps <==> id in c.xps) && (id in c.xps ==> d.xps[id] == NormalXp(c.xps[id]))
  {
    hide NormalXp;
  }

  // ---------------------------------------------------------------- saving again

  /** A slot described only by a count of zero slices. */
  predicate OnlyZero(s: Slot) {
    s.nodes == [] && s.dcs == Some(0)
  }

  lemma NormalSlot(p: Port, dn: nat)
    ensures var s, t := SlotOf(p, dn), SlotOf(NormalPort(p), dn);
            t.nodes == s.nodes && t.cpus == s.cpus && NonZero(t.dcs) == NonZero(s.dcs) &&
            Explicit(t) == (Explicit(s) && !OnlyZero(s))
  {
  }

  lemma {:induction false} SaveNormalParts(at: PortAt, p: Port, n: nat)
    ensures SaveNodes(NormalPort(p), n) == SaveNodes(p, n)
    ensures SaveCpus(at, NormalPort(p), n) == SaveCpus(at, p, n)
    ensures (forall dn :: 0 <= dn < n ==> !OnlyZero(SlotOf(p, dn))) ==> SaveSlots(NormalPort(p), n) == SaveSlots(p, n)
  {
    if n > 0 {
      SaveNormalParts(at, p, n - 1);
      NormalSlot(p, n - 1);
      hide NormalPort, SlotOf, OnlyZero, Explicit, NonZero;
    }
  }

  predicate Describes(l: seq<JSlot>, dn: nat) {
    exists i :: 0 <= i < |l| && l[i].deviceNumber == dn
  }

  lemma {:induction false} DescribedSlots(p: Port, n: nat, dn: nat)
    ensures Describes(SaveSlots(p, n), dn) == (dn < n && Explicit(SlotOf(p, dn)))
  {
    if n > 0 {
      DescribedSlots(p, n - 1, dn);
      hide Explicit, SlotOf, NonZero;
      var before := SaveSlots(p, n - 1);
      var l := SaveSlots(p, n);
      if Describes(before, dn) {
        var i :| 0 <= i < |before| && before[i].deviceNumber == dn;
        assert l[i] == before[i];
      } else if Explicit(SlotOf(p, n - 1)) {
        assert l[|before|].deviceNumber == n - 1;
      }
    }
  }

  ghost predicate NoOnlyZero(p: Port) {
    forall dn :: dn in p.slots ==> !OnlyZero(p.slots[dn])
  }

  /**
   A loaded port saves as the document it came from exactly if no slot was described by a
   zero count alone: such a slot is listed the first time, without the count, so that what
   loads is not described any more and the next document leaves it out.
   */
  lemma PortSavesAgainIff(at: PortAt, p: Port)
    requires ValidPort(at, p)
    ensures SavePort(at, NormalPort(p)) == SavePort(at, p) <==> NoOnlyZero(p)
  {
    SaveNormalParts(at, p, 4);
    if !NoOnlyZero(p) {
      var dn :| dn in p.slots && OnlyZero(p.slots[dn]);
      NormalSlot(p, dn);
      DescribedSlots(p, 4, dn);
      DescribedSlots(NormalPort(p), 4, dn);
      hide SaveSlots, NormalPort, ValidNode, SaveNodes, SaveCpus;
    } else {
      hide SaveSlots, SaveNodes, SaveCpus, ValidPort;
    }
  }

  lemma LastDiffers<T>(a: seq<T>, x: T, b: seq<T>, y: T)
    requires |a| == |b|
    ensures a + [x] == b + [y] <==> a == b && x == y
  {
    if a + [x] == b + [y] {
      assert (a + [x])[..|a|] == a && (b + [y])[..|b|] == b;
      assert (a + [x])[|a|] == x && (b + [y])[|b|] == y;
    }
  }

  /** One port more, in both documents. */
  lemma PortsSaveAgainStep(c: Cmn, k: nat, id: nat, xp: Xp, n: nat)
    requires n > 0
    ensures SavePorts(c, k, id, xp, 0) == [] == SavePorts(NormalCmn(c), k, id, NormalXp(xp), 0)
    ensures n - 1 !in xp.ports ==>
              SavePorts(c, k, id, xp, n) == SavePorts(c, k, id, xp, n - 1) &&
              SavePorts(NormalCmn(c), k, id, NormalXp(xp), n) == SavePorts(NormalCmn(c), k, id, NormalXp(xp), n - 1)
    ensures n - 1 in xp.ports ==>
              var at := At(c, k, id, xp.nPorts, n - 1);
              && SavePorts(c, k, id, xp, n) == SavePorts(c, k, id, xp, n - 1) + [SavePort(at, xp.ports[n - 1])]
              && SavePorts(NormalCmn(c), k, id, NormalXp(xp), n)
                 == SavePorts(NormalCmn(c), k, id, NormalXp(xp), n - 1) + [SavePort(at, NormalPort(xp.ports[n - 1]))]
  {
    AtIs(c, NormalCmn(c), k, id, xp.nPorts, n - 1);
    hide At, SavePort, NormalPort;
  }

  lemma {:induction false} PortsSaveAgainIff(c: Cmn, k: nat, id: nat, xp: Xp, n: nat)
    requires forall pn :: pn in xp.ports ==> ValidPort(At(c, k, id, xp.nPorts, pn), xp.ports[pn])
    ensures |SavePorts(NormalCmn(c), k, id, NormalXp(xp), n)| == |SavePorts(c, k, id, xp, n)|
    ensures SavePorts(NormalCmn(c), k, id, NormalXp(xp), n) == SavePorts(c, k, id, xp, n)
            <==> forall pn :: pn in xp.ports && pn < n ==> NoOnlyZero(xp.ports[pn])
  {
    hide *;
    if n == 0 {
      PortsSaveAgainStep(c, k, id, xp, 1);
    } else {
      PortsSaveAgainIff(c, k, id, xp, n - 1);
      PortsSaveAgainStep(c, k, id, xp, n);
      if n - 1 in xp.ports {
        var at := At(c, k, id, xp.nPorts, n - 1);
        PortSavesAgainIff(at, xp.ports[n - 1]);
        LastDiffers(SavePorts(NormalCmn(c), k, id, NormalXp(xp), n - 1), SavePort(at, NormalPort(xp.ports[n - 1])),
                    SavePorts(c, k, id, xp, n - 1), SavePort(at, xp.ports[n - 1]));
      }
    }
  }

  ghost predicate XpNoOnlyZero(xp: Xp) {
    forall pn :: pn in xp.ports ==> NoOnlyZero(xp.ports[pn])
  }

  lemma XpSavesAgainIff(c: Cmn, k: nat, id: nat, xp: Xp)
    requires ValidXp(c, k, id, xp)
    ensures SaveXp(NormalCmn(c), k, id, NormalXp(xp)) == SaveXp(c, k, id, xp) <==> XpNoOnlyZero(xp)
  {
    PortsSaveAgainIff(c, k, id, xp, 4);
    forall pn | pn in xp.ports
      ensures pn < 4
    {
      assert ValidPort(At(c, k, id, xp.nPorts, pn), xp.ports[pn]);
      AtIs(c, c, k, id, xp.nPorts, pn);
    }
    hide SavePorts, NoOnlyZero, NormalPort, NormalCmn, ValidXp, At;
  }

  lemma XpsSaveAgainStep(c: Cmn, k: nat, n: nat)
    requires n > 0
    ensures SaveXps(c, k, 0) == [] == SaveXps(NormalCmn(c), k, 0)
    ensures n - 1 !in c.xps ==>
              SaveXps(c, k, n) == SaveXps(c, k, n - 1) && SaveXps(NormalCmn(c), k, n) == SaveXps(NormalCmn(c), k, n - 1)
    ensures n - 1 in c.xps ==>
              && SaveXps(c, k, n) == SaveXps(c, k, n - 1) + [SaveXp(c, k, n - 1, c.xps[n - 1])]
              && SaveXps(NormalCmn(c), k, n)
                 == SaveXps(NormalCmn(c), k, n - 1) + [SaveXp(NormalCmn(c), k, n - 1, NormalXp(c.xps[n - 1]))]
  {
    hide SaveXp, NormalXp;
  }

  lemma {:induction false} XpsSaveAgainIff(c: Cmn, k: nat, n: nat)
    requires forall id :: id in c.xps ==> ValidXp(c, k, id, c.xps[id])
    ensures |SaveXps(NormalCmn(c), k, n)| == |SaveXps(c, k, n)|
    ensures SaveXps(NormalCmn(c), k, n) == SaveXps(c, k, n) <==> forall id :: id in c.xps && id < n ==> XpNoOnlyZero(c.xps[id])
  {
    hide *;
    if n == 0 {
      XpsSaveAgainStep(c, k, 1);
    } else {
      XpsSaveAgainIff(c, k, n - 1);
      XpsSaveAgainStep(c, k, n);
      if n - 1 in c.xps {
        XpSavesAgainIff(c, k, n - 1, c.xps[n - 1]);
        LastDiffers(SaveXps(NormalCmn(c), k, n - 1), SaveXp(NormalCmn(c), k, n - 1, NormalXp(c.xps[n - 1])),
                    SaveXps(c, k, n - 1), SaveXp(c, k, n - 1, c.xps[n - 1]));
      }
    }
  }

  ghost predicate CmnNoOnlyZero(c: Cmn) {
    forall id :: id in c.xps ==> XpNoOnlyZero(c.xps[id])
  }

  lemma CmnSavesAgainIff(c: Cmn, k: nat)
    requires ValidCmn(c, k)
    ensures SaveCmn(NormalCmn(c), k) == SaveCmn(c, k) <==> CmnNoOnlyZero(c)
  {
    assert NormalCmn(c).xps.Keys == c.xps.Keys;
    XpsSaveAgainIff(c, k, Above(c.xps.Keys));
    hide SaveXps, XpNoOnlyZero, ValidCmn, NormalXp;
  }

  /** A system that was saved and loaded saves as the same document exactly if it has no such slot anywhere. */
  lemma SystemSavesAgainIff(s: Topology)
    requires Valid(s)
    ensures SaveSystem(Normal(s)) == SaveSystem(s) <==> forall k :: 0 <= k < |s.cmns| ==> CmnNoOnlyZero(s.cmns[k])
  {
    forall k | 0 <= k < |s.cmns|
      ensures SaveSystem(Normal(s))[k] == SaveSystem(s)[k] <==> CmnNoOnlyZero(s.cmns[k])
    {
      CmnSavesAgainIff(s.cmns[k], k);
      hide SaveCmn, NormalCmn, CmnNoOnlyZero, Valid;
    }
    hide SaveCmn, NormalCmn, CmnNoOnlyZero, Valid;
  }

  // ---------------------------------------------------------------- the loader

  class System {
    var cmns: seq<Cmn>
    var cpus: CpuMap

    function Contents(): Topology
      reads this
    {
      Topology(cmns, cpus)
    }

    constructor ()
      ensures Contents() == EMPTY
    {
      cmns, cpus := [], map[];
    }

    method ReadPort(at: PortAt, j: JPort) returns (r: Result<Port, LoadError>)
      requires j.kind.Some?
      modifies this`cpus
      ensures match LoadPort(at, old(cpus), j)
              case Err(e) => r == Err(e)
              case Ok(q) => r == Ok(q.0) && cpus == q.1
    {
      hide AddNode, AddSlot, AddCpu;
      if at.number > 3 {
        return Err(BadPortNumber);
      }
      var p := Port(j.kind.value, j.kindName, if j.cal.Some? then j.cal.value else 0, j.ccs, map[]);
      ghost var bare := p;
      for i := 0 to |j.devices|
        invariant AddNodes(at, bare, j.devices) == AddNodes(at, p, j.devices[i..])
        invariant cpus == old(cpus)
      {
        match AddNode(at, p, j.devices[i])
        case Err(e) => return Err(e);
        case Ok(q) => p := q;
      }
      ghost var withNodes := p;
      for i := 0 to |j.pdevices|
        invariant AddSlots(at, withNodes, j.pdevices) == AddSlots(at, p, j.pdevices[i..])
        invariant cpus == old(cpus)
      {
        match AddSlot(at, p, j.pdevices[i])
        case Err(e) => return Err(e);
        case Ok(q) => p := q;
      }
      ghost var withSlots := p;
      for i := 0 to |j.attached|
        invariant AddCpus(at, (withSlots, old(cpus)), j.attached) == AddCpus(at, (p, cpus), j.attached[i..])
      {
        match AddCpu(at, (p, cpus), j.attached[i])
        case Err(e) => return Err(e);
        case Ok(q) => p, cpus := q.0, q.1;
      }
      return Ok(p);
    }

    method ReadXp(c: Cmn, j: JXp) returns (r: Result<Cmn, LoadError>)
      modifies this`cpus
      ensures match LoadXp(|cmns|, (c, old(cpus)), j)
              case Err(e) => r == Err(e)
              case Ok(q) => r == Ok(q.0) && cpus == q.1
    {
      hide LoadPort, At, CreateXp;
      var created := CreateXp(c, j);
      if created.Err? {
        return Err(created.error);
      }
      var d := created.value;
      CreatedXp(c, j);
      var xp := d.xps[j.id];
      var ports: Ports := map[];
      for i := 0 to |j.ports|
        invariant AddPorts(d, |cmns|, j.id, xp.nPorts, (map[], old(cpus)), j.ports)
               == AddPorts(d, |cmns|, j.id, xp.nPorts, (ports, cpus), j.ports[i..])
      {
        if j.ports[i].kind.Some? {
          var p := ReadPort(At(d, |cmns|, j.id, xp.nPorts, j.ports[i].port), j.ports[i]);
          if p.Err? {
            return Err(p.error);
          }
          ports := ports[j.ports[i].port := p.value];
        }
      }
      return Ok(d.(xps := d.xps[j.id := xp.(ports := ports)]));
    }

    method ReadCmn(j: JCmn) returns (failure: Option<LoadError>)
      modifies this
      ensures match LoadCmn(old(Contents()), j)
              case Err(e) => failure == Some(e)
              case Ok(t) => failure == None && Contents() == t
    {
      hide LoadXp;
      var c := Cmn(j.about, j.isCmn600, j.dimX, j.dimY, j.extraPorts, map[]);
      ghost var bare := c;
      for i := 0 to |j.xps|
        invariant cmns == old(cmns)
        invariant LoadXps(|cmns|, (bare, old(cpus)), j.xps) == LoadXps(|cmns|, (c, cpus), j.xps[i..])
      {
        var d := ReadXp(c, j.xps[i]);
        if d.Err? {
          return Some(d.error);
        }
        c := d.value;
      }
      cmns := cmns + [c];
      return None;
    }

    method FromJson(l: seq<JCmn>) returns (failure: Option<LoadError>)
      modifies this
      ensures match LoadCmns(old(Contents()), l)
              case Err(e) => failure == Some(e)
              case Ok(t) => failure == None && Contents() == t
    {
      hide LoadCmn;
      for i := 0 to |l|
        invariant LoadCmns(old(Contents()), l) == LoadCmns(Contents(), l[i..])
      {
        failure := ReadCmn(l[i]);
        if failure.Some? {
          return;
        }
      }
      return None;
    }
  }

  lemma CreatedXp(c: Cmn, j: JXp)
    requires CreateXp(c, j).Ok?
    ensures j.id in CreateXp(c, j).value.xps
  {
    hide XpId, MaxPorts;
  }
}
