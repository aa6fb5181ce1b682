/**
 What a document that lists a port again costs.  Every listing creates the port anew; CPUs of
 an earlier listing stay on the system's map, and can never be attached again.
 */
module RepeatedPorts {
  import opened Options
  import opened TopologyJson
  import opened SystemJson
  import opened LoadedSystems
  import NodeIds

  // ---------------------------------------------------------------- the CPU numbers on a port

  ghost predicate HasNumber(p: Port, n: nat) {
    exists dn, i :: dn in p.slots && 0 <= i < |p.slots[dn].cpus| && p.slots[dn].cpus[i].number == n
  }

  /** CPUs that a port gains are new to the map. */
  ghost predicate OnlyNew(p: Port, before: CpuMap, q: Port, after: CpuMap) {
    (forall n :: n in before ==> n in after && after[n] == before[n]) &&
    forall n :: HasNumber(q, n) ==> HasNumber(p, n) || (n !in before && n in after)
  }

  lemma AddNodeAddsNone(at: PortAt, p: Port, j: JDevice, cpus: CpuMap)
    requires AddNode(at, p, j).Ok?
    ensures OnlyNew(p, cpus, AddNode(at, p, j).value, cpus)
  {
    var q := AddNode(at, p, j).value;
    forall n | HasNumber(q, n)
      ensures HasNumber(p, n)
    {
      var dn, i :| dn in q.slots && 0 <= i < |q.slots[dn].cpus| && q.slots[dn].cpus[i].number == n;
      assert dn in p.slots && q.slots[dn].cpus == p.slots[dn].cpus;
    }
  }

  lemma AddSlotAddsNone(at: PortAt, p: Port, j: JSlot, cpus: CpuMap)
    requires AddSlot(at, p, j).Ok?
    ensures OnlyNew(p, cpus, AddSlot(at, p, j).value, cpus)
  {
    var q := AddSlot(at, p, j).value;
    forall n | HasNumber(q, n)
      ensures HasNumber(p, n)
    {
      var dn, i :| dn in q.slots && 0 <= i < |q.slots[dn].cpus| && q.slots[dn].cpus[i].number == n;
      assert dn in p.slots && q.slots[dn].cpus == p.slots[dn].cpus;
    }
  }

  lemma WithCpuAddsOne(at: PortAt, pc: (Port, CpuMap), dn: nat, c: Cpu)
    requires c.number !in pc.1
    ensures OnlyNew(pc.0, pc.1, WithCpu(at, pc, dn, c).0, WithCpu(at, pc, dn, c).1)
    ensures OnPort(WithCpu(at, pc, dn, c).1, at, c.number)
  {
    var q := WithCpu(at, pc, dn, c);
    forall n | HasNumber(q.0, n)
      ensures HasNumber(pc.0, n) || n == c.number
    {
      var d, i :| d in q.0.slots && 0 <= i < |q.0.slots[d].cpus| && q.0.slots[d].cpus[i].number == n;
      if d == dn && i == |SlotOf(pc.0, dn).cpus| {
        assert q.0.slots[d].cpus[i] == c;
      } else {
        assert d in pc.0.slots && q.0.slots[d].cpus[i] == pc.0.slots[d].cpus[i];
      }
    }
  }

  lemma NewTwice(p: Port, a: CpuMap, q: Port, b: CpuMap, r: Port, c: CpuMap)
    requires OnlyNew(p, a, q, b) && OnlyNew(q, b, r, c)
    ensures OnlyNew(p, a, r, c)
  {
    hide HasNumber;
  }

  lemma {:induction false} AddNodesAddNone(at: PortAt, p: Port, l: seq<JDevice>, cpus: CpuMap)
    requires AddNodes(at, p, l).Ok?
    ensures OnlyNew(p, cpus, AddNodes(at, p, l).value, cpus)
    decreases |l|
  {
    hide AddNode, HasNumber;
    if l != [] {
      AddNodeAddsNone(at, p, l[0], cpus);
      AddNodesAddNone(at, AddNode(at, p, l[0]).value, l[1..], cpus);
    }
  }

  lemma {:induction false} AddSlotsAddNone(at: PortAt, p: Port, l: seq<JSlot>, cpus: CpuMap)
    requires AddSlots(at, p, l).Ok?
    ensures OnlyNew(p, cpus, AddSlots(at, p, l).value, cpus)
    decreases |l|
  {
    hide AddSlot, HasNumber;
    if l != [] {
      AddSlotAddsNone(at, p, l[0], cpus);
      AddSlotsAddNone(at, AddSlot(at, p, l[0]).value, l[1..], cpus);
    }
  }

  lemma {:induction false} AddCpusAddNew(at: PortAt, pc: (Port, CpuMap), l: seq<JCpu>)
    requires AddCpus(at, pc, l).Ok?
    ensures OnlyNew(pc.0, pc.1, AddCpus(at, pc, l).value.0, AddCpus(at, pc, l).value.1)
    ensures l != [] ==> l[0].cpu !in pc.1 && OnPort(AddCpus(at, pc, l).value.1, at, l[0].cpu)
    decreases |l|
  {
    hide AddCpu, HasNumber, WithCpu;
    if l != [] {
      var q := AddCpu(at, pc, l[0]).value;
      AddCpuIs(at, pc, l[0]);
      WithCpuAddsOne(at, pc, SlotFor(at, l[0]), Cpu(l[0].cpu, l[0].lpid));
      AddCpusAddNew(at, q, l[1..]);
      NewTwice(pc.0, pc.1, q.0, q.1, AddCpus(at, pc, l).value.0, AddCpus(at, pc, l).value.1);
    }
  }

  /** A port that loads has CPUs that are new to the map only, and puts its first one there. */
  lemma LoadPortAddsNew(at: PortAt, cpus: CpuMap, j: JPort)
    requires j.kind.Some? && LoadPort(at, cpus, j).Ok?
    ensures var q := LoadPort(at, cpus, j).value;
            && (forall n :: n in cpus ==> n in q.1 && q.1[n] == cpus[n])
            && (forall n :: HasNumber(q.0, n) ==> n !in cpus && n in q.1)
            && (j.attached != [] ==> j.attached[0].cpu !in cpus && OnPort(q.1, at, j.attached[0].cpu))
  {
    var bare := Port(j.kind.value, j.kindName, if j.cal.Some? then j.cal.value else 0, j.ccs, map[]);
    assert forall n :: !HasNumber(bare, n);
    hide AddNodes, AddSlots, AddCpus, HasNumber, OnPort;
    AddNodesAddNone(at, bare, j.devices, cpus);
    var withNodes := AddNodes(at, bare, j.devices).value;
    AddSlotsAddNone(at, withNodes, j.pdevices, cpus);
    var withSlots := AddSlots(at, withNodes, j.pdevices).value;
    AddCpusAddNew(at, (withSlots, cpus), j.attached);
  }

  // ---------------------------------------------------------------- the ports of a crosspoint

  /** A CPU that is on none of the ports, but for one perhaps. */
  ghost predicate OnNone(ports: Ports, n: nat, but: Option<nat>) {
    forall pn :: pn in ports && but != Some(pn) ==> !HasNumber(ports[pn], n)
  }

  ghost predicate Known(ports: Ports, cpus: CpuMap) {
    forall pn, n :: pn in ports && HasNumber(ports[pn], n) ==> n in cpus
  }

  ghost predicate ListedIn(l: seq<JPort>, pn: nat) {
    exists j :: 0 <= j < |l| && l[j].kind.Some? && l[j].port == pn
  }

  /** A lost CPU stays lost while more ports are loaded; one that was on a port that is listed gets lost. */
  lemma {:induction false} LostStays(c: Cmn, k: nat, id: nat, nPorts: nat, pc: (Ports, CpuMap), l: seq<JPort>, n: nat, but: Option<nat>)
    requires AddPorts(c, k, id, nPorts, pc, l).Ok? && n in pc.1 && OnNone(pc.0, n, but)
    requires but.Some? ==> ListedIn(l, but.value)
    ensures var q := AddPorts(c, k, id, nPorts, pc, l).value;
            n in q.1 && q.1[n] == pc.1[n] && OnNone(q.0, n, None)
    decreases |l|
  {
    hide LoadPort, At, HasNumber, OnPort;
    if l != [] {
      if l[0].kind == None {
        assert but.Some? ==> ListedIn(l[1..], but.value) by {
          ListedLater(l, but);
        }
        LostStays(c, k, id, nPorts, pc, l[1..], n, but);
      } else {
        var at := At(c, k, id, nPorts, l[0].port);
        var q := LoadPort(at, pc.1, l[0]).value;
        LoadPortAddsNew(at, pc.1, l[0]);
        ListedLater(l, but);
        LostStays(c, k, id, nPorts, (pc.0[l[0].port := q.0], q.1), l[1..], n, if but == Some(l[0].port) then None else but);
      }
    }
  }

  lemma ListedLater(l: seq<JPort>, but: Option<nat>)
    requires l != []
    ensures but.Some? && ListedIn(l, but.value) && (l[0].kind == None || l[0].port != but.value) ==> ListedIn(l[1..], but.value)
  {
    if but.Some? && ListedIn(l, but.value) && (l[0].kind == None || l[0].port != but.value) {
      var j :| 0 <= j < |l| && l[j].kind.Some? && l[j].port == but.value;
      assert l[1..][j - 1] == l[j];
    }
  }

  lemma AgainIsListed(l: seq<JPort>)
    requires CpusListedAgain(l)
    ensures l != []
    ensures CpusListedAgain(l[1..]) || (l[0].kind.Some? && l[0].attached != [] && ListedIn(l[1..], l[0].port))
  {
    var i, j :| ListsAgain(l, i, j);
    if i > 0 {
      assert ListsAgain(l[1..], i - 1, j - 1);
    } else {
      assert l[1..][j - 1] == l[j];
    }
  }

  /** Listing a port again after it was listed with CPUs loses one of them. */
  lemma {:induction false} AgainLoses(c: Cmn, k: nat, id: nat, nPorts: nat, pc: (Ports, CpuMap), l: seq<JPort>) returns (n: nat)
    requires AddPorts(c, k, id, nPorts, pc, l).Ok? && Known(pc.0, pc.1) && CpusListedAgain(l)
    ensures var q := AddPorts(c, k, id, nPorts, pc, l).value;
            n in q.1 && q.1[n].cmnSeq == k && q.1[n].xp == id && OnNone(q.0, n, None)
    decreases |l|
  {
    hide LoadPort, At, HasNumber, CpusListedAgain, ListedIn;
    AgainIsListed(l);
    if l[0].kind == None {
      n := AgainLoses(c, k, id, nPorts, pc, l[1..]);
    } else {
      var at := At(c, k, id, nPorts, l[0].port);
      AtIs(c, c, k, id, nPorts, l[0].port);
      var q := LoadPort(at, pc.1, l[0]).value;
      LoadPortAddsNew(at, pc.1, l[0]);
      var next := (pc.0[l[0].port := q.0], q.1);
      if CpusListedAgain(l[1..]) {
        n := AgainLoses(c, k, id, nPorts, next, l[1..]);
      } else {
        n := l[0].attached[0].cpu;
        LostStays(c, k, id, nPorts, next, l[1..], n, Some(l[0].port));
      }
    }
  }

  // ---------------------------------------------------------------- meshes and systems

  /** A CPU that the map has on a crosspoint none of whose ports has it. */
  ghost predicate LostOn(cpus: CpuMap, k: nat, c: Cmn, n: nat) {
    n in cpus && cpus[n].cmnSeq == k && cpus[n].xp in c.xps && OnNone(c.xps[cpus[n].xp].ports, n, None)
  }

  lemma LoadedXpHas(k: nat, m: Mesh, j: JXp)
    requires LoadXp(k, m, j).Ok?
    ensures var d := CreateXp(m.0, j);
            && d.Ok? && j.id !in m.0.xps && j.id in d.value.xps
            && var r := AddPorts(d.value, k, j.id, d.value.xps[j.id].nPorts, (map[], m.1), j.ports);
               var q := LoadXp(k, m, j).value;
               && r.Ok? && q.1 == r.value.1 && j.id in q.0.xps && q.0.xps[j.id].ports == r.value.0
               && forall id :: id in m.0.xps ==> id in q.0.xps && q.0.xps[id] == m.0.xps[id]
  {
    CreatedHas(m.0, j);
    hide CreateXp, AddPorts;
  }

  /** The map only grows while a crosspoint is loaded. */
  lemma LoadXpKeepsCpu(k: nat, m: Mesh, j: JXp, n: nat)
    requires LoadXp(k, m, j).Ok? && n in m.1
    ensures n in LoadXp(k, m, j).value.1 && LoadXp(k, m, j).value.1[n] == m.1[n]
  {
    hide LoadXp, CreateXp, AddPorts;
    LoadedXpHas(k, m, j);
    var d := CreateXp(m.0, j).value;
    LostStays(d, k, j.id, d.xps[j.id].nPorts, (map[], m.1), j.ports, n, None);
  }

  lemma LoadXpKeepsLost(k: nat, m: Mesh, j: JXp, n: nat)
    requires LoadXp(k, m, j).Ok? && LostOn(m.1, k, m.0, n)
    ensures LostOn(LoadXp(k, m, j).value.1, k, LoadXp(k, m, j).value.0, n)
  {
    hide LoadXp, CreateXp, AddPorts, OnNone;
    LoadedXpHas(k, m, j);
    LoadXpKeepsCpu(k, m, j, n);
  }

  lemma LoadXpLoses(k: nat, m: Mesh, j: JXp) returns (n: nat)
    requires LoadXp(k, m, j).Ok? && CpusListedAgain(j.ports)
    ensures LostOn(LoadXp(k, m, j).value.1, k, LoadXp(k, m, j).value.0, n)
  {
    hide LoadXp, CreateXp, AddPorts, CpusListedAgain, OnNone;
    LoadedXpHas(k, m, j);
    var d := CreateXp(m.0, j).value;
    n := AgainLoses(d, k, j.id, d.xps[j.id].nPorts, (map[], m.1), j.ports);
  }

  lemma {:induction false} LoadXpsKeepLost(k: nat, m: Mesh, l: seq<JXp>, n: nat)
    requires LoadXps(k, m, l).Ok? && LostOn(m.1, k, m.0, n)
    ensures LostOn(LoadXps(k, m, l).value.1, k, LoadXps(k, m, l).value.0, n)
    decreases |l|
  {
    hide LoadXp, LostOn;
    if l != [] {
      LoadXpKeepsLost(k, m, l[0], n);
      LoadXpsKeepLost(k, LoadXp(k, m, l[0]).value, l[1..], n);
    }
  }

  lemma {:induction false} LoadXpsKeepCpu(k: nat, m: Mesh, l: seq<JXp>, n: nat)
    requires LoadXps(k, m, l).Ok? && n in m.1
    ensures n in LoadXps(k, m, l).value.1 && LoadXps(k, m, l).value.1[n] == m.1[n]
    decreases |l|
  {
    hide LoadXp;
    if l != [] {
      LoadXpKeepsCpu(k, m, l[0], n);
      LoadXpsKeepCpu(k, LoadXp(k, m, l[0]).value, l[1..], n);
    }
  }

  lemma {:induction false} LoadXpsLose(k: nat, m: Mesh, l: seq<JXp>, j: nat) returns (n: nat)
    requires LoadXps(k, m, l).Ok? && j < |l| && CpusListedAgain(l[j].ports)
    ensures LostOn(LoadXps(k, m, l).value.1, k, LoadXps(k, m, l).value.0, n)
    decreases |l|
  {
    hide LoadXp, LostOn, CpusListedAgain;
    if j == 0 {
      n := LoadXpLoses(k, m, l[0]);
      LoadXpsKeepLost(k, LoadXp(k, m, l[0]).value, l[1..], n);
    } else {
      n := LoadXpsLose(k, LoadXp(k, m, l[0]).value, l[1..], j - 1);
    }
  }

  ghost predicate LostIn(s: Topology, n: nat) {
    n in s.cpus && s.cpus[n].cmnSeq < |s.cmns| && LostOn(s.cpus, s.cpus[n].cmnSeq, s.cmns[s.cpus[n].cmnSeq], n)
  }

  lemma LoadCmnKeepsLost(s: Topology, j: JCmn, n: nat)
    requires LoadCmn(s, j).Ok? && LostIn(s, n)
    ensures LostIn(LoadCmn(s, j).value, n)
  {
    hide LoadXps, OnNone;
    LoadXpsKeepCpu(|s.cmns|, (Cmn(j.about, j.isCmn600, j.dimX, j.dimY, j.extraPorts, map[]), s.cpus), j.xps, n);
  }

  lemma {:induction false} LoadCmnsKeepLost(s: Topology, l: seq<JCmn>, n: nat)
    requires LoadCmns(s, l).Ok? && LostIn(s, n)
    ensures LostIn(LoadCmns(s, l).value, n)
    decreases |l|
  {
    hide LoadCmn, LostIn;
    if l != [] {
      LoadCmnKeepsLost(s, l[0], n);
      LoadCmnsKeepLost(LoadCmn(s, l[0]).value, l[1..], n);
    }
  }

  lemma LoadCmnLoses(s: Topology, j: JCmn, i: nat) returns (n: nat)
    requires LoadCmn(s, j).Ok? && i < |j.xps| && CpusListedAgain(j.xps[i].ports)
    ensures LostIn(LoadCmn(s, j).value, n)
  {
    hide LoadXps, OnNone, CpusListedAgain;
    n := LoadXpsLose(|s.cmns|, (Cmn(j.about, j.isCmn600, j.dimX, j.dimY, j.extraPorts, map[]), s.cpus), j.xps, i);
  }

  lemma {:induction false} LoadCmnsLose(s: Topology, l: seq<JCmn>, i: nat, j: nat) returns (n: nat)
    requires LoadCmns(s, l).Ok? && i < |l| && j < |l[i].xps| && CpusListedAgain(l[i].xps[j].ports)
    ensures LostIn(LoadCmns(s, l).value, n)
    decreases |l|
  {
    hide LoadCmn, LostIn, CpusListedAgain;
    if i == 0 {
      n := LoadCmnLoses(s, l[0], j);
      LoadCmnsKeepLost(LoadCmn(s, l[0]).value, l[1..], n);
    } else {
      n := LoadCmnsLose(LoadCmn(s, l[0]).value, l[1..], i - 1, j);
    }
  }

  /** A system with a lost CPU disagrees with itself. */
  lemma LostIsNotValid(s: Topology, n: nat)
    requires LostIn(s, n)
    ensures !Valid(s)
  {
    var at := s.cpus[n];
    var xp := s.cmns[at.cmnSeq].xps[at.xp];
    hide ValidCmn, At;
    if Valid(s) {
      PlaceIsPort(s, n);
      AtIs(s.cmns[at.cmnSeq], s.cmns[at.cmnSeq], at.cmnSeq, at.xp, xp.nPorts, at.port);
      AgreeingHas(s.cpus, At(s.cmns[at.cmnSeq], at.cmnSeq, at.xp, xp.nPorts, at.port), xp.ports[at.port], n);
    }
  }

  lemma AgreeingHas(all: CpuMap, at: PortAt, p: Port, n: nat)
    requires CpusAgree(all, at, p) && OnPort(all, at, n)
    ensures HasNumber(p, n)
  {
    var cpus := p.slots[all[n].device].cpus;
    var i :| 0 <= i < |cpus| && cpus[i] == Cpu(n, all[n].lpid);
  }

  /**
   A document that loads gives a system that agrees with itself exactly if no crosspoint lists
   a port, in use and with CPUs attached, and then lists that port in use again.
   */
  lemma LoadedIsValidIff(l: seq<JCmn>)
    requires LoadCmns(EMPTY, l).Ok?
    ensures Valid(LoadCmns(EMPTY, l).value) <==> !DocumentListsAgain(l)
  {
    hide Valid, LoadCmns, CpusListedAgain, LostIn;
    if DocumentListsAgain(l) {
      var i, j :| 0 <= i < |l| && 0 <= j < |l[i].xps| && CpusListedAgain(l[i].xps[j].ports);
      var n := LoadCmnsLose(EMPTY, l, i, j);
      LostIsNotValid(LoadCmns(EMPTY, l).value, n);
    } else {
      LoadedIsValid(l);
    }
  }

  // ---------------------------------------------------------------- a document

  const PORT_WITHOUT := JPort(0, Some(1), "RN-F", None, None, [], [], [])
  const PORT_WITH_CPU := PORT_WITHOUT.(attached := [JCpu(7, None, 0)])
  const REPEATING := [JCmn("one crosspoint", false, 1, 1, None,
                           [JXp(0, 0, Some(2), 0, None, None, None, None, None, [PORT_WITHOUT, PORT_WITH_CPU, PORT_WITHOUT])])]

  lemma RepeatingCreates()
    ensures var j := REPEATING[0].xps[0];
            CreateXp(Cmn("one crosspoint", false, 1, 1, None, map[]), j)
            == Ok(Cmn("one crosspoint", false, 1, 1, None, map[0 := Xp(0, 0, 2, None, None, None, None, None, map[])]))
  {
  }

  lemma WithoutLoads(at: PortAt, cpus: CpuMap)
    requires at.number == 0
    ensures LoadPort(at, cpus, PORT_WITHOUT) == Ok((Port(1, "RN-F", 0, None, map[]), cpus))
  {
  }

  lemma WithCpuLoads(at: PortAt, cpus: CpuMap)
    requires at.number == 0 && 7 !in cpus && NodeIds.IsValidId(at.base, at.nPorts, 0, at.base)
    ensures LoadPort(at, cpus, PORT_WITH_CPU).Ok?
  {
    hide NodeIds.IsValidId;
    var bare := Port(1, "RN-F", 0, None, map[]);
    assert AddCpu(at, (bare, cpus), PORT_WITH_CPU.attached[0]).Ok?;
    assert PORT_WITH_CPU.attached[1..] == [];
    assert AddCpus(at, (bare, cpus), PORT_WITH_CPU.attached).Ok?;
  }

  lemma BaseIsValid(nPorts: nat)
    ensures NodeIds.BaseId(0, nPorts, 0) == 0 && NodeIds.IsValidId(0, nPorts, 0, 0)
  {
  }

  lemma NextLoads(c: Cmn, pc: (Ports, CpuMap), j: JPort, rest: seq<JPort>)
    requires j.kind.Some? && LoadPort(At(c, 0, 0, 2, j.port), pc.1, j).Ok?
    ensures var q := LoadPort(At(c, 0, 0, 2, j.port), pc.1, j).value;
            AddPorts(c, 0, 0, 2, pc, [j] + rest) == AddPorts(c, 0, 0, 2, (pc.0[j.port := q.0], q.1), rest)
  {
    hide LoadPort, At;
    assert ([j] + rest)[1..] == rest;
  }

  lemma ThreeLoad(c: Cmn, a: JPort, b: JPort)
    requires a.kind.Some? && b.kind.Some? && b.port == a.port && LoadPort(At(c, 0, 0, 2, a.port), map[], b).Ok?
    requires forall cpus :: LoadPort(At(c, 0, 0, 2, a.port), cpus, a).Ok? && LoadPort(At(c, 0, 0, 2, a.port), cpus, a).value.1 == cpus
    ensures AddPorts(c, 0, 0, 2, (map[], map[]), [a, b, a]).Ok?
  {
    hide LoadPort, At, AddPorts;
    var at := At(c, 0, 0, 2, a.port);
    var p := LoadPort(at, map[], a).value;
    var q := LoadPort(at, map[], b).value;
    var r := LoadPort(at, q.1, a).value;
    NextLoads(c, (map[], map[]), a, [b, a]);
    NextLoads(c, (map[][a.port := p.0], map[]), b, [a]);
    NextLoads(c, (map[][a.port := p.0][a.port := q.0], q.1), a, []);
    NoMorePorts(c, (map[][a.port := p.0][a.port := q.0][a.port := r.0], r.1));
    assert [a, b, a] == [a] + [b, a];
    assert [b, a] == [b] + [a];
    assert [a] == [a] + [];
  }

  lemma FirstPort(c: Cmn)
    ensures var at := At(c, 0, 0, 2, 0);
            at.number == 0 && at.base == 0 && at.nPorts == 2 && NodeIds.IsValidId(at.base, at.nPorts, 0, at.base)
  {
    BaseIsValid(2);
    hide NodeIds.IsValidId, NodeIds.BaseId;
  }

  lemma RepeatingPortsLoad(c: Cmn)
    ensures AddPorts(c, 0, 0, 2, (map[], map[]), REPEATING[0].xps[0].ports).Ok?
  {
    hide LoadPort, At, AddPorts, NodeIds.IsValidId;
    var at := At(c, 0, 0, 2, 0);
    FirstPort(c);
    WithCpuLoads(at, map[]);
    forall cpus
      ensures LoadPort(at, cpus, PORT_WITHOUT).Ok? && LoadPort(at, cpus, PORT_WITHOUT).value.1 == cpus
    {
      WithoutLoads(at, cpus);
    }
    ThreeLoad(c, PORT_WITHOUT, PORT_WITH_CPU);
  }

  lemma NoMorePorts(c: Cmn, pc: (Ports, CpuMap))
    ensures AddPorts(c, 0, 0, 2, pc, []) == Ok(pc)
  {
  }

  /** A port without CPUs, with one, and without again: the document loads, and the CPU is nowhere. */
  lemma RepeatingLoads()
    ensures LoadCmns(EMPTY, REPEATING).Ok? && !Valid(LoadCmns(EMPTY, REPEATING).value)
  {
    var c := Cmn("one crosspoint", false, 1, 1, None, map[]);
    RepeatingXpLoads(c);
    assert ListsAgain(REPEATING[0].xps[0].ports, 1, 2);
    hide Valid, LoadXp;
    assert REPEATING[0].xps[1..] == [];
    assert REPEATING[1..] == [];
    assert LoadXps(0, (c, map[]), REPEATING[0].xps).Ok?;
    assert LoadCmn(EMPTY, REPEATING[0]).Ok?;
    LoadedIsValidIff(REPEATING);
  }

  lemma RepeatingXpLoads(c: Cmn)
    requires c == Cmn("one crosspoint", false, 1, 1, None, map[])
    ensures LoadXp(0, (c, map[]), REPEATING[0].xps[0]).Ok?
  {
    RepeatingCreates();
    RepeatingPortsLoad(CreateXp(c, REPEATING[0].xps[0]).value);
    hide AddPorts, CreateXp;
  }
}
