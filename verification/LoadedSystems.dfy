/**
 What loading builds is a system that saves and loads again: the creation checks keep the
 topology and the CPU map in agreement.
 */
module LoadedSystems {
  import opened Options
  import opened TopologyJson
  import opened SystemJson
  import NodeIds

  // ---------------------------------------------------------------- one port

  /** Entries are only added, and only at one port. */
  ghost predicate GrowsOn(before: CpuMap, after: CpuMap, at: PortAt) {
    (forall n :: n in before ==> n in after && after[n] == before[n]) &&
    forall n :: n in after && n !in before ==> OnPort(after, at, n)
  }

  ghost predicate Agrees(at: PortAt, pc: (Port, CpuMap)) {
    ValidPort(at, pc.0) && CpusAgree(pc.1, at, pc.0)
  }

  lemma AddNodeAgrees(at: PortAt, pc: (Port, CpuMap), j: JDevice)
    requires Agrees(at, pc) && AddNode(at, pc.0, j).Ok?
    ensures Agrees(at, (AddNode(at, pc.0, j).value, pc.1))
  {
    hide NodeIds.IsValidId;
  }

  lemma AddSlotAgrees(at: PortAt, pc: (Port, CpuMap), j: JSlot)
    requires Agrees(at, pc) && AddSlot(at, pc.0, j).Ok?
    ensures Agrees(at, (AddSlot(at, pc.0, j).value, pc.1))
  {
    hide NodeIds.IsValidId, ValidNode;
  }

  /** The device slot that an attached CPU is put on. */
  function SlotFor(at: PortAt, j: JCpu): nat {
    if j.id.Some? && j.id.value >= at.base then j.id.value - at.base else 0
  }

  lemma AddCpuIs(at: PortAt, pc: (Port, CpuMap), j: JCpu)
    requires AddCpu(at, pc, j).Ok?
    ensures AddCpu(at, pc, j).value == WithCpu(at, pc, SlotFor(at, j), Cpu(j.cpu, j.lpid))
    ensures j.cpu !in pc.1 && SlotFor(at, j) < Span(at) && NodeIds.IsValidId(at.base, at.nPorts, pc.0.cal, at.base + SlotFor(at, j))
  {
    hide NodeIds.IsValidId;
  }

  lemma WithCpuIsValid(at: PortAt, pc: (Port, CpuMap), dn: nat, c: Cpu)
    requires ValidPort(at, pc.0) && dn < Span(at) && NodeIds.IsValidId(at.base, at.nPorts, pc.0.cal, at.base + dn)
    ensures ValidPort(at, WithCpu(at, pc, dn, c).0)
  {
    hide NodeIds.IsValidId, ValidNode;
  }

  lemma WithCpuAgrees(at: PortAt, pc: (Port, CpuMap), dn: nat, c: Cpu)
    requires CpusAgree(pc.1, at, pc.0) && c.number !in pc.1
    ensures CpusAgree(WithCpu(at, pc, dn, c).1, at, WithCpu(at, pc, dn, c).0)
    ensures GrowsOn(pc.1, WithCpu(at, pc, dn, c).1, at)
  {
    var s, q := SlotOf(pc.0, dn), WithCpu(at, pc, dn, c);
    assert q.0.slots[dn].cpus == s.cpus + [c];
    assert q.1[c.number] == Place(at.cmnSeq, at.xp, at.number, dn, c.lpid);
    assert c in q.0.slots[dn].cpus;
  }

  lemma AddCpuAgrees(at: PortAt, pc: (Port, CpuMap), j: JCpu)
    requires Agrees(at, pc) && AddCpu(at, pc, j).Ok?
    ensures Agrees(at, AddCpu(at, pc, j).value) && GrowsOn(pc.1, AddCpu(at, pc, j).value.1, at)
  {
    hide ValidPort, CpusAgree, AddCpu, WithCpu, GrowsOn, NodeIds.IsValidId;
    AddCpuIs(at, pc, j);
    WithCpuIsValid(at, pc, SlotFor(at, j), Cpu(j.cpu, j.lpid));
    WithCpuAgrees(at, pc, SlotFor(at, j), Cpu(j.cpu, j.lpid));
  }

  lemma {:induction false} AddNodesAgree(at: PortAt, pc: (Port, CpuMap), l: seq<JDevice>)
    requires Agrees(at, pc) && AddNodes(at, pc.0, l).Ok?
    ensures Agrees(at, (AddNodes(at, pc.0, l).value, pc.1))
    decreases |l|
  {
    hide Agrees, AddNode;
    if l != [] {
      AddNodeAgrees(at, pc, l[0]);
      AddNodesAgree(at, (AddNode(at, pc.0, l[0]).value, pc.1), l[1..]);
    }
  }

  lemma {:induction false} AddSlotsAgree(at: PortAt, pc: (Port, CpuMap), l: seq<JSlot>)
    requires Agrees(at, pc) && AddSlots(at, pc.0, l).Ok?
    ensures Agrees(at, (AddSlots(at, pc.0, l).value, pc.1))
    decreases |l|
  {
    hide Agrees, AddSlot;
    if l != [] {
      AddSlotAgrees(at, pc, l[0]);
      AddSlotsAgree(at, (AddSlot(at, pc.0, l[0]).value, pc.1), l[1..]);
    }
  }

  lemma {:induction false} AddCpusAgree(at: PortAt, pc: (Port, CpuMap), l: seq<JCpu>)
    requires Agrees(at, pc) && AddCpus(at, pc, l).Ok?
    ensures Agrees(at, AddCpus(at, pc, l).value) && GrowsOn(pc.1, AddCpus(at, pc, l).value.1, at)
    decreases |l|
  {
    hide Agrees, AddCpu, OnPort;
    if l != [] {
      AddCpuAgrees(at, pc, l[0]);
      AddCpusAgree(at, AddCpu(at, pc, l[0]).value, l[1..]);
      GrowsTwice(pc.1, AddCpu(at, pc, l[0]).value.1, AddCpus(at, pc, l).value.1, at);
    }
  }

  lemma GrowsTwice(a: CpuMap, b: CpuMap, c: CpuMap, at: PortAt)
    requires GrowsOn(a, b, at) && GrowsOn(b, c, at)
    ensures GrowsOn(a, c, at)
  {
  }

  /** A port that loads where no CPU is yet is valid and agrees with the CPU map. */
  lemma LoadPortAgrees(at: PortAt, cpus: CpuMap, j: JPort)
    requires j.kind.Some? && LoadPort(at, cpus, j).Ok? && forall n :: !OnPort(cpus, at, n)
    ensures Agrees(at, LoadPort(at, cpus, j).value) && GrowsOn(cpus, LoadPort(at, cpus, j).value.1, at)
  {
    var bare := Port(j.kind.value, j.kindName, if j.cal.Some? then j.cal.value else 0, j.ccs, map[]);
    BareAgrees(at, cpus, bare);
    hide Agrees, AddNodes, AddSlots, AddCpus, GrowsOn;
    AddNodesAgree(at, (bare, cpus), j.devices);
    var withNodes := AddNodes(at, bare, j.devices).value;
    AddSlotsAgree(at, (withNodes, cpus), j.pdevices);
    AddCpusAgree(at, (AddSlots(at, withNodes, j.pdevices).value, cpus), j.attached);
  }

  lemma BareAgrees(at: PortAt, cpus: CpuMap, p: Port)
    requires p.slots == map[] && at.number <= 3 && forall n :: !OnPort(cpus, at, n)
    ensures Agrees(at, (p, cpus))
  {
    assert forall n :: n in cpus && cpus[n].cmnSeq == at.cmnSeq && cpus[n].xp == at.xp && cpus[n].port == at.number ==>
      OnPort(cpus, at, n);
  }

  // ---------------------------------------------------------------- a port joins a system

  function WithPort(s: Topology, k: nat, id: nat, pn: nat, p: Port, cpus: CpuMap): Topology
    requires k < |s.cmns| && id in s.cmns[k].xps
  {
    var c := s.cmns[k];
    var xp := c.xps[id];
    Topology(s.cmns[k := c.(xps := c.xps[id := xp.(ports := xp.ports[pn := p])])], cpus)
  }

  /** Growth at one port leaves every other port in agreement. */
  lemma OtherPortAgrees(before: CpuMap, after: CpuMap, at: PortAt, other: PortAt, p: Port)
    requires CpusAgree(before, other, p) && GrowsOn(before, after, at)
    requires (other.cmnSeq, other.xp, other.number) != (at.cmnSeq, at.xp, at.number)
    ensures CpusAgree(after, other, p)
  {
  }

  lemma WithPortHas(s: Topology, k: nat, id: nat, pn: nat, p: Port, cpus: CpuMap, k2: nat, id2: nat, pn2: nat)
    requires k < |s.cmns| && id in s.cmns[k].xps
    ensures var t := WithPort(s, k, id, pn, p, cpus);
            && |t.cmns| == |s.cmns| && t.cpus == cpus
            && (k2 < |s.cmns| ==> SameMesh(t.cmns[k2], s.cmns[k2]) && t.cmns[k2].xps.Keys == s.cmns[k2].xps.Keys)
            && (k2 < |s.cmns| && id2 in s.cmns[k2].xps ==>
                  var x, y := t.cmns[k2].xps[id2], s.cmns[k2].xps[id2];
                  && x.x == y.x && x.y == y.y && x.nPorts == y.nPorts
                  && (pn2 in x.ports <==> pn2 in y.ports || (k2, id2, pn2) == (k, id, pn))
                  && (pn2 in x.ports ==> x.ports[pn2] == if (k2, id2, pn2) == (k, id, pn) then p else y.ports[pn2]))
  {
  }

  /** What a port joining needs: it is valid, and agrees with a map that grows there only. */
  ghost predicate MayJoin(s: Topology, k: nat, id: nat, pn: nat, p: Port, cpus: CpuMap) {
    Valid(s) && k < |s.cmns| && id in s.cmns[k].xps &&
    var at := At(s.cmns[k], k, id, s.cmns[k].xps[id].nPorts, pn);
    Agrees(at, (p, cpus)) && GrowsOn(s.cpus, cpus, at)
  }

  lemma JoinedPortAgrees(s: Topology, k: nat, id: nat, pn: nat, p: Port, cpus: CpuMap, k2: nat, id2: nat, pn2: nat)
    requires MayJoin(s, k, id, pn, p, cpus)
    requires IsPort(WithPort(s, k, id, pn, p, cpus), Place(k2, id2, pn2, 0, 0))
    ensures var t := WithPort(s, k, id, pn, p, cpus);
            Agrees(At(t.cmns[k2], k2, id2, t.cmns[k2].xps[id2].nPorts, pn2), (t.cmns[k2].xps[id2].ports[pn2], cpus))
  {
    var t := WithPort(s, k, id, pn, p, cpus);
    var n := s.cmns[k].xps[id].nPorts;
    WithPortHas(s, k, id, pn, p, cpus, k2, id2, pn2);
    AtIs(s.cmns[k2], t.cmns[k2], k2, id2, t.cmns[k2].xps[id2].nPorts, pn2);
    AtIs(s.cmns[k], s.cmns[k], k, id, n, pn);
    hide WithPort, CpusAgree, ValidPort, At, GrowsOn;
    if (k2, id2, pn2) != (k, id, pn) {
      ValidPortOf(s, k2, id2, pn2);
      hide Valid;
      OtherPortAgrees(s.cpus, cpus, At(s.cmns[k], k, id, n, pn), At(t.cmns[k2], k2, id2, t.cmns[k2].xps[id2].nPorts, pn2),
                      s.cmns[k2].xps[id2].ports[pn2]);
    }
  }

  lemma JoinedPlaceIsPort(s: Topology, k: nat, id: nat, pn: nat, p: Port, cpus: CpuMap, n: nat)
    requires MayJoin(s, k, id, pn, p, cpus) && n in cpus
    ensures IsPort(WithPort(s, k, id, pn, p, cpus), cpus[n])
  {
    WithPortHas(s, k, id, pn, p, cpus, cpus[n].cmnSeq, cpus[n].xp, cpus[n].port);
    AtIs(s.cmns[k], s.cmns[k], k, id, s.cmns[k].xps[id].nPorts, pn);
    hide WithPort, CpusAgree, ValidCmn, ValidPort, At;
  }

  lemma JoinedXpIsValid(s: Topology, k: nat, id: nat, pn: nat, p: Port, cpus: CpuMap, k2: nat, id2: nat)
    requires MayJoin(s, k, id, pn, p, cpus) && k2 < |s.cmns| && id2 in s.cmns[k2].xps
    ensures var t := WithPort(s, k, id, pn, p, cpus);
            k2 < |t.cmns| && id2 in t.cmns[k2].xps && ValidXp(t.cmns[k2], k2, id2, t.cmns[k2].xps[id2])
  {
    var t := WithPort(s, k, id, pn, p, cpus);
    WithPortHas(s, k, id, pn, p, cpus, k2, id2, 0);
    assert ValidXp(s.cmns[k2], k2, id2, s.cmns[k2].xps[id2]) by {
      hide ValidXp, CpusAgree;
    }
    var x := t.cmns[k2].xps[id2];
    forall pn2 | pn2 in x.ports
      ensures ValidPort(At(t.cmns[k2], k2, id2, x.nPorts, pn2), x.ports[pn2])
    {
      JoinedPortAgrees(s, k, id, pn, p, cpus, k2, id2, pn2);
      hide Valid, ValidPort, CpusAgree, At, WithPort;
    }
    hide MayJoin, WithPort, ValidPort, At, NodeIds.XyId, NodeIds.CoordBits, LinkCount;
  }

  /** A port that agrees with the grown map may join. */
  lemma WithPortIsValid(s: Topology, k: nat, id: nat, pn: nat, p: Port, cpus: CpuMap)
    requires MayJoin(s, k, id, pn, p, cpus)
    ensures Valid(WithPort(s, k, id, pn, p, cpus))
  {
    var t := WithPort(s, k, id, pn, p, cpus);
    forall k2: nat, id2, pn2 | k2 < |t.cmns| && id2 in t.cmns[k2].xps && pn2 in t.cmns[k2].xps[id2].ports
      ensures CpusAgree(cpus, At(t.cmns[k2], k2, id2, t.cmns[k2].xps[id2].nPorts, pn2), t.cmns[k2].xps[id2].ports[pn2])
    {
      JoinedPortAgrees(s, k, id, pn, p, cpus, k2, id2, pn2);
      hide Valid, ValidPort, CpusAgree, At, WithPort;
    }
    forall n | n in cpus
      ensures IsPort(t, cpus[n])
    {
      JoinedPlaceIsPort(s, k, id, pn, p, cpus, n);
    }
    forall k2: nat | k2 < |t.cmns|
      ensures ValidCmn(t.cmns[k2], k2)
    {
      forall id2 | id2 in t.cmns[k2].xps
        ensures ValidXp(t.cmns[k2], k2, id2, t.cmns[k2].xps[id2])
      {
        WithPortHas(s, k, id, pn, p, cpus, k2, id2, 0);
        JoinedXpIsValid(s, k, id, pn, p, cpus, k2, id2);
      }
      hide ValidXp, MayJoin;
    }
    hide MayJoin, ValidCmn, CpusAgree, At, IsPort;
  }

  // ---------------------------------------------------------------- whole documents

  /** Entries i and j of a crosspoint list one port, the first of them with CPUs. */
  ghost predicate ListsAgain(l: seq<JPort>, i: int, j: int) {
    0 <= i < j < |l| && l[i].kind.Some? && l[j].kind.Some? && l[i].port == l[j].port && l[i].attached != []
  }

  ghost predicate CpusListedAgain(l: seq<JPort>) {
    exists i, j :: ListsAgain(l, i, j)
  }

  /** Some crosspoint of a document lists a port with CPUs, and then again. */
  ghost predicate DocumentListsAgain(l: seq<JCmn>) {
    exists i, j :: 0 <= i < |l| && 0 <= j < |l[i].xps| && CpusListedAgain(l[i].xps[j].ports)
  }

  lemma ListsAgainLater(l: seq<JPort>)
    requires l != []
    ensures CpusListedAgain(l[1..]) ==> CpusListedAgain(l)
    ensures !CpusListedAgain(l) && l[0].kind.Some? && l[0].attached != [] ==>
              forall j :: 1 <= j < |l| && l[j].kind.Some? ==> l[j].port != l[0].port
  {
    if CpusListedAgain(l[1..]) {
      var i, j :| ListsAgain(l[1..], i, j);
      assert ListsAgain(l, i + 1, j + 1);
    }
    forall j | 1 <= j < |l| && l[0].kind.Some? && l[0].attached != [] && l[j].kind.Some? && l[j].port == l[0].port
      ensures CpusListedAgain(l)
    {
      assert ListsAgain(l, 0, j);
    }
  }

  predicate NoCpuAt(cpus: CpuMap, k: nat, id: nat, pn: nat) {
    forall n :: n in cpus ==> !(cpus[n].cmnSeq == k && cpus[n].xp == id && cpus[n].port == pn)
  }

  /** No CPU is yet at a port that is still to be loaded. */
  ghost predicate NoCpusYet(cpus: CpuMap, k: nat, id: nat, l: seq<JPort>) {
    forall j :: 0 <= j < |l| && l[j].kind.Some? ==> NoCpuAt(cpus, k, id, l[j].port)
  }

  lemma NothingAttached(at: PortAt, cpus: CpuMap, j: JPort)
    requires j.kind.Some? && LoadPort(at, cpus, j).Ok? && j.attached == []
    ensures LoadPort(at, cpus, j).value.1 == cpus
  {
    hide AddNodes, AddSlots;
  }

  /** After a port is loaded, still no CPU is at those that follow. */
  lemma StillNoCpus(cpus: CpuMap, all: CpuMap, at: PortAt, l: seq<JPort>)
    requires l != [] && l[0].kind.Some? && at.number == l[0].port && !CpusListedAgain(l)
    requires NoCpusYet(cpus, at.cmnSeq, at.xp, l) && GrowsOn(cpus, all, at) && (l[0].attached == [] ==> all == cpus)
    ensures NoCpusYet(all, at.cmnSeq, at.xp, l[1..])
  {
    ListsAgainLater(l);
    forall j | 0 <= j < |l[1..]| && l[1..][j].kind.Some?
      ensures NoCpuAt(all, at.cmnSeq, at.xp, l[1..][j].port)
    {
      assert NoCpuAt(cpus, at.cmnSeq, at.xp, l[j + 1].port);
    }
  }

  function WithPorts(s: Topology, k: nat, id: nat, ports: Ports, cpus: CpuMap): Topology
    requires k < |s.cmns| && id in s.cmns[k].xps
  {
    var c := s.cmns[k];
    Topology(s.cmns[k := c.(xps := c.xps[id := c.xps[id].(ports := ports)])], cpus)
  }

  lemma {:induction false} AddPortsOnAnyMesh(c: Cmn, d: Cmn, k: nat, id: nat, nPorts: nat, pc: (Ports, CpuMap), l: seq<JPort>)
    requires c.isCmn600 == d.isCmn600
    ensures AddPorts(c, k, id, nPorts, pc, l) == AddPorts(d, k, id, nPorts, pc, l)
    decreases |l|
  {
    hide LoadPort, At;
    if l == [] {
    } else if l[0].kind == None {
      AddPortsOnAnyMesh(c, d, k, id, nPorts, pc, l[1..]);
    } else {
      AtIs(c, d, k, id, nPorts, l[0].port);
      var q := LoadPort(At(c, k, id, nPorts, l[0].port), pc.1, l[0]);
      if q.Ok? {
        AddPortsOnAnyMesh(c, d, k, id, nPorts, (pc.0[l[0].port := q.value.0], q.value.1), l[1..]);
      }
    }
  }

  lemma WithPortThenPorts(s: Topology, k: nat, id: nat, pn: nat, p: Port, cpus: CpuMap, ports: Ports, all: CpuMap)
    requires k < |s.cmns| && id in s.cmns[k].xps
    ensures var t := WithPort(s, k, id, pn, p, cpus);
            && k < |t.cmns| && id in t.cmns[k].xps && t.cmns[k].isCmn600 == s.cmns[k].isCmn600
            && t.cmns[k].xps[id].ports == s.cmns[k].xps[id].ports[pn := p]
            && t.cmns[k].xps[id].nPorts == s.cmns[k].xps[id].nPorts
            && WithPorts(t, k, id, ports, all) == WithPorts(s, k, id, ports, all)
  {
    var c := s.cmns[k];
    var xp := c.xps[id];
    PutTwice(c.xps, id, xp.(ports := xp.ports[pn := p]), xp.(ports := ports));
  }

  lemma WithSamePorts(s: Topology, k: nat, id: nat)
    requires k < |s.cmns| && id in s.cmns[k].xps
    ensures WithPorts(s, k, id, s.cmns[k].xps[id].ports, s.cpus) == s
  {
    var c := s.cmns[k];
    assert c.xps[id := c.xps[id]] == c.xps;
    assert s.cmns[k := c] == s.cmns;
  }

  /** One more port of a crosspoint, listed for the first time or again without CPUs so far. */
  lemma NextPortJoins(s: Topology, k: nat, id: nat, j: JPort)
    requires Valid(s) && k < |s.cmns| && id in s.cmns[k].xps && j.kind.Some? && NoCpuAt(s.cpus, k, id, j.port)
    requires LoadPort(At(s.cmns[k], k, id, s.cmns[k].xps[id].nPorts, j.port), s.cpus, j).Ok?
    ensures var at := At(s.cmns[k], k, id, s.cmns[k].xps[id].nPorts, j.port);
            var q := LoadPort(at, s.cpus, j).value;
            Valid(WithPort(s, k, id, j.port, q.0, q.1)) && GrowsOn(s.cpus, q.1, at)
  {
    hide Valid, LoadPort, At, Agrees, GrowsOn, WithPort;
    var at := At(s.cmns[k], k, id, s.cmns[k].xps[id].nPorts, j.port);
    AtIs(s.cmns[k], s.cmns[k], k, id, s.cmns[k].xps[id].nPorts, j.port);
    LoadPortAgrees(at, s.cpus, j);
    var q := LoadPort(at, s.cpus, j).value;
    WithPortIsValid(s, k, id, j.port, q.0, q.1);
  }

  lemma {:induction false} AddPortsKeepValid(s: Topology, k: nat, id: nat, l: seq<JPort>)
    requires Valid(s) && k < |s.cmns| && id in s.cmns[k].xps && !CpusListedAgain(l) && NoCpusYet(s.cpus, k, id, l)
    requires AddPorts(s.cmns[k], k, id, s.cmns[k].xps[id].nPorts, (s.cmns[k].xps[id].ports, s.cpus), l).Ok?
    ensures var q := AddPorts(s.cmns[k], k, id, s.cmns[k].xps[id].nPorts, (s.cmns[k].xps[id].ports, s.cpus), l).value;
            Valid(WithPorts(s, k, id, q.0, q.1))
    decreases |l|
  {
    hide Valid, LoadPort, At, WithPort, WithPorts, CpusListedAgain, GrowsOn, NoCpuAt;
    var c, xp := s.cmns[k], s.cmns[k].xps[id];
    if l == [] {
      WithSamePorts(s, k, id);
    } else if l[0].kind == None {
      ListsAgainLater(l);
      AddPortsKeepValid(s, k, id, l[1..]);
    } else {
      ListsAgainLater(l);
      NextPortJoins(s, k, id, l[0]);
      var at := At(c, k, id, xp.nPorts, l[0].port);
      AtIs(c, c, k, id, xp.nPorts, l[0].port);
      var q := LoadPort(at, s.cpus, l[0]).value;
      if l[0].attached == [] {
        NothingAttached(at, s.cpus, l[0]);
      }
      StillNoCpus(s.cpus, q.1, at, l);
      var t := WithPort(s, k, id, l[0].port, q.0, q.1);
      var all := AddPorts(c, k, id, xp.nPorts, (xp.ports, s.cpus), l).value;
      WithPortThenPorts(s, k, id, l[0].port, q.0, q.1, all.0, all.1);
      assert t.cpus == q.1 by {
        WithPortHas(s, k, id, l[0].port, q.0, q.1, k, id, 0);
      }
      AddPortsOnAnyMesh(c, t.cmns[k], k, id, xp.nPorts, (xp.ports[l[0].port := q.0], q.1), l[1..]);
      AddPortsKeepValid(t, k, id, l[1..]);
    }
  }

  // ---------------------------------------------------------------- crosspoints, meshes, systems

  /** The system while its last mesh is being loaded. */
  function InProgress(cmns: seq<Cmn>, m: Mesh): Topology {
    Topology(cmns + [m.0], m.1)
  }

  lemma CreatedPortAgrees(cmns: seq<Cmn>, m: Mesh, j: JXp, k: nat, id: nat, pn: nat)
    requires Valid(InProgress(cmns, m)) && CreateXp(m.0, j).Ok?
    requires IsPort(InProgress(cmns, (CreateXp(m.0, j).value, m.1)), Place(k, id, pn, 0, 0))
    ensures var t := InProgress(cmns, (CreateXp(m.0, j).value, m.1));
            CpusAgree(m.1, At(t.cmns[k], k, id, t.cmns[k].xps[id].nPorts, pn), t.cmns[k].xps[id].ports[pn])
  {
    var s, t := InProgress(cmns, m), InProgress(cmns, (CreateXp(m.0, j).value, m.1));
    CreatedHas(m.0, j);
    hide CreateXp, CpusAgree, At, ValidCmn;
    assert s.cmns[k].isCmn600 == t.cmns[k].isCmn600 && id in s.cmns[k].xps && s.cmns[k].xps[id] == t.cmns[k].xps[id];
    AtIs(s.cmns[k], t.cmns[k], k, id, t.cmns[k].xps[id].nPorts, pn);
  }

  lemma CreatedPlacesArePorts(cmns: seq<Cmn>, m: Mesh, j: JXp, n: nat)
    requires Valid(InProgress(cmns, m)) && CreateXp(m.0, j).Ok? && n in m.1
    ensures IsPort(InProgress(cmns, (CreateXp(m.0, j).value, m.1)), m.1[n])
  {
    PlaceIsPort(InProgress(cmns, m), n);
    CreatedHas(m.0, j);
    hide Valid, CreateXp;
    PortStays(cmns, m.0, CreateXp(m.0, j).value, m.1, j.id, m.1[n]);
  }

  /** A crosspoint more takes no port away. */
  lemma PortStays(cmns: seq<Cmn>, c: Cmn, d: Cmn, cpus: CpuMap, id: nat, at: Place)
    requires IsPort(InProgress(cmns, (c, cpus)), at)
    requires id !in c.xps && id in d.xps && d.xps == c.xps[id := d.xps[id]]
    ensures IsPort(InProgress(cmns, (d, cpus)), at)
  {
    var s, t := InProgress(cmns, (c, cpus)), InProgress(cmns, (d, cpus));
    if at.cmnSeq == |cmns| {
      assert s.cmns[at.cmnSeq] == c && t.cmns[at.cmnSeq] == d;
    } else {
      assert s.cmns[at.cmnSeq] == t.cmns[at.cmnSeq];
    }
  }

  lemma PlaceIsPort(s: Topology, n: nat)
    requires Valid(s) && n in s.cpus
    ensures IsPort(s, s.cpus[n])
  {
    hide ValidCmn, CpusAgree, At;
  }

  lemma CreatedMeshesAreValid(cmns: seq<Cmn>, m: Mesh, j: JXp, k: nat)
    requires Valid(InProgress(cmns, m)) && CreateXp(m.0, j).Ok? && k <= |cmns|
    ensures ValidCmn(InProgress(cmns, (CreateXp(m.0, j).value, m.1)).cmns[k], k)
  {
    hide CreateXp, CpusAgree, At, ValidCmn, IsPort;
    assert ValidCmn(InProgress(cmns, m).cmns[k], k);
    if k == |cmns| {
      CreatedMeshIsValid(m.0, k, j);
    }
  }

  /** Creating a crosspoint keeps the system valid. */
  lemma CreateKeepsValid(cmns: seq<Cmn>, m: Mesh, j: JXp)
    requires Valid(InProgress(cmns, m)) && CreateXp(m.0, j).Ok?
    ensures Valid(InProgress(cmns, (CreateXp(m.0, j).value, m.1)))
  {
    var t := InProgress(cmns, (CreateXp(m.0, j).value, m.1));
    forall k: nat | k < |t.cmns|
      ensures ValidCmn(t.cmns[k], k)
    {
      CreatedMeshesAreValid(cmns, m, j, k);
    }
    forall k: nat, id, pn | k < |t.cmns| && id in t.cmns[k].xps && pn in t.cmns[k].xps[id].ports
      ensures CpusAgree(t.cpus, At(t.cmns[k], k, id, t.cmns[k].xps[id].nPorts, pn), t.cmns[k].xps[id].ports[pn])
    {
      CreatedPortAgrees(cmns, m, j, k, id, pn);
    }
    forall n | n in t.cpus
      ensures IsPort(t, t.cpus[n])
    {
      CreatedPlacesArePorts(cmns, m, j, n);
    }
    hide CreateXp, ValidCmn, CpusAgree, At, IsPort;
  }

  lemma CreatedHas(c: Cmn, j: JXp)
    requires CreateXp(c, j).Ok?
    ensures var d := CreateXp(c, j).value;
            && d.isCmn600 == c.isCmn600 && j.id in d.xps && d.xps[j.id].ports == map[] && j.id !in c.xps
            && d.xps == c.xps[j.id := d.xps[j.id]]
  {
    hide XpId, MaxPorts;
  }

  lemma CreatedMeshIsValid(c: Cmn, k: nat, j: JXp)
    requires ValidCmn(c, k) && CreateXp(c, j).Ok?
    ensures ValidCmn(CreateXp(c, j).value, k)
  {
    var d := CreateXp(c, j).value;
    hide ValidPort, LinkCount, NodeIds.XyId, NodeIds.CoordBits, NodeIds.BaseId;
    forall id | id in d.xps
      ensures ValidXp(d, k, id, d.xps[id])
    {
      if id != j.id {
        assert ValidXp(c, k, id, c.xps[id]);
      }
    }
  }

  lemma NoCpuOnNewXp(cmns: seq<Cmn>, m: Mesh, id: nat, l: seq<JPort>)
    requires Valid(InProgress(cmns, m)) && id !in m.0.xps
    ensures NoCpusYet(m.1, |cmns|, id, l)
  {
    var s := InProgress(cmns, m);
    forall n | n in m.1
      ensures !(m.1[n].cmnSeq == |cmns| && m.1[n].xp == id)
    {
      PlaceIsPort(s, n);
      hide Valid;
    }
    hide Valid;
  }

  lemma LoadXpKeepsValid(cmns: seq<Cmn>, m: Mesh, j: JXp)
    requires Valid(InProgress(cmns, m)) && !CpusListedAgain(j.ports) && LoadXp(|cmns|, m, j).Ok?
    ensures Valid(InProgress(cmns, LoadXp(|cmns|, m, j).value))
  {
    CreateKeepsValid(cmns, m, j);
    CreatedHas(m.0, j);
    hide CreateXp, Valid, AddPorts, CpusListedAgain;
    var s := InProgress(cmns, (CreateXp(m.0, j).value, m.1));
    NoCpuOnNewXp(cmns, m, j.id, j.ports);
    AddPortsKeepValid(s, |cmns|, j.id, j.ports);
    var q := AddPorts(s.cmns[|cmns|], |cmns|, j.id, s.cmns[|cmns|].xps[j.id].nPorts, (map[], m.1), j.ports).value;
    assert InProgress(cmns, LoadXp(|cmns|, m, j).value).cmns == WithPorts(s, |cmns|, j.id, q.0, q.1).cmns;
  }

  lemma {:induction false} LoadXpsKeepValid(cmns: seq<Cmn>, m: Mesh, l: seq<JXp>)
    requires Valid(InProgress(cmns, m)) && (forall i :: 0 <= i < |l| ==> !CpusListedAgain(l[i].ports))
    requires LoadXps(|cmns|, m, l).Ok?
    ensures Valid(InProgress(cmns, LoadXps(|cmns|, m, l).value))
    decreases |l|
  {
    hide Valid, LoadXp, CpusListedAgain, InProgress;
    if l != [] {
      LoadXpKeepsValid(cmns, m, l[0]);
      LoadXpsKeepValid(cmns, LoadXp(|cmns|, m, l[0]).value, l[1..]);
    }
  }

  lemma EmptyMeshIsValid(s: Topology, c: Cmn)
    requires Valid(s) && c.xps == map[]
    ensures Valid(InProgress(s.cmns, (c, s.cpus)))
  {
    hide ValidXp, CpusAgree, At;
  }

  lemma {:induction false} LoadCmnsKeepValid(s: Topology, l: seq<JCmn>)
    requires Valid(s) && !DocumentListsAgain(l) && LoadCmns(s, l).Ok?
    ensures Valid(LoadCmns(s, l).value)
    decreases |l|
  {
    if l != [] {
      var c := Cmn(l[0].about, l[0].isCmn600, l[0].dimX, l[0].dimY, l[0].extraPorts, map[]);
      EmptyMeshIsValid(s, c);
      hide Valid, LoadXps, CpusListedAgain;
      LoadXpsKeepValid(s.cmns, (c, s.cpus), l[0].xps);
      forall i, j | 0 <= i < |l[1..]| && 0 <= j < |l[1..][i].xps|
        ensures !CpusListedAgain(l[1..][i].xps[j].ports)
      {
        assert l[1..][i] == l[i + 1];
      }
      LoadCmnsKeepValid(LoadCmn(s, l[0]).value, l[1..]);
    }
  }

  /** Any document that loads, and lists no port again after listing it with CPUs, gives a system that agrees with itself. */
  lemma LoadedIsValid(l: seq<JCmn>)
    requires !DocumentListsAgain(l) && LoadCmns(EMPTY, l).Ok?
    ensures Valid(LoadCmns(EMPTY, l).value)
  {
    LoadCmnsKeepValid(EMPTY, l);
  }

  /** So what was loaded can be saved and loaded any number of times, and comes back as its normal form. */
  lemma LoadedRoundTrip(l: seq<JCmn>)
    requires !DocumentListsAgain(l) && LoadCmns(EMPTY, l).Ok?
    ensures var s := LoadCmns(EMPTY, l).value;
            LoadCmns(EMPTY, SaveSystem(s)) == Ok(Normal(s))
  {
    hide Valid, LoadCmns, SaveSystem, Normal, DocumentListsAgain;
    LoadedIsValid(l);
    SystemRoundTrip(LoadCmns(EMPTY, l).value);
  }

  /**
   Listing a port again creates it anew, without its CPUs.  The system then still agrees with
   itself exactly if there were none.
   */
  lemma PortAgainIsValidIff(s: Topology, k: nat, id: nat, pn: nat, p: Port)
    requires Valid(s) && IsPort(s, Place(k, id, pn, 0, 0)) && p.slots == map[]
    ensures Valid(WithPort(s, k, id, pn, p, s.cpus)) <==>
            forall n :: !OnPort(s.cpus, At(s.cmns[k], k, id, s.cmns[k].xps[id].nPorts, pn), n)
  {
    var t := WithPort(s, k, id, pn, p, s.cpus);
    var at := At(s.cmns[k], k, id, s.cmns[k].xps[id].nPorts, pn);
    AtIs(s.cmns[k], t.cmns[k], k, id, s.cmns[k].xps[id].nPorts, pn);
    WithPortHas(s, k, id, pn, p, s.cpus, k, id, pn);
    if forall n :: !OnPort(s.cpus, at, n) {
      PortNumbers(s, Place(k, id, pn, 0, 0));
      BareAgrees(at, s.cpus, p);
      WithPortIsValid(s, k, id, pn, p, s.cpus);
    } else {
      hide WithPort, At, ValidCmn;
      var n :| OnPort(s.cpus, at, n);
      if Valid(t) {
        ValidPortOf(t, k, id, pn);
      }
    }
  }
}
