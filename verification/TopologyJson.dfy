/**
 Saving a system's topology as JSON and loading it again.

 Loading goes through the same checked creation calls as discovery, so it can fail; a
 result `Err` is one of their assertions.  Optional keys of a JSON object are Option values.
 */
module TopologyJson {
  import opened Options
  import NodeIds

  // ---------------------------------------------------------------- the system

  const NODE_CFG := 2
  const NODE_DT := 3
  const NODE_XP := 6

  datatype DevNode = DevNode(kind: nat, kindName: string, id: nat, logicalId: Option<nat>)

  datatype Cpu = Cpu(number: nat, lpid: nat)

  /** A device slot: credited slices, device nodes, CPUs. */
  datatype Slot = Slot(dcs: Option<nat>, nodes: seq<DevNode>, cpus: seq<Cpu>)

  const EMPTY_SLOT := Slot(None, [], [])

  /** cal is 0 on a port without a CAL. */
  datatype Port = Port(kind: nat, kindName: string, cal: nat, ccs: Option<nat>, slots: map<nat, Slot>)

  datatype Xp = Xp(x: nat, y: nat, nPorts: nat, logicalId: Option<nat>, dtc: Option<nat>, skipped: Option<nat>,
                   mcsEast: Option<nat>, mcsNorth: Option<nat>, ports: map<nat, Port>)

  /** Where a CPU is: `xp` is the XP's id. */
  datatype Place = Place(cmnSeq: nat, xp: nat, port: nat, device: nat, lpid: nat)

  /** `about` stands for what is copied unchanged: versions, base address, frequency.  XPs are by id. */
  datatype Cmn = Cmn(about: string, isCmn600: bool, dimX: nat, dimY: nat, extraPorts: Option<bool>, xps: map<nat, Xp>)

  type CpuMap = map<nat, Place>

  // ---------------------------------------------------------------- JSON

  datatype JDevice = JDevice(id: nat, kind: nat, kindName: string, logicalId: Option<nat>)

  datatype JSlot = JSlot(deviceNumber: nat, dcs: Option<nat>)

  datatype JCpu = JCpu(cpu: nat, id: Option<nat>, lpid: nat)

  datatype JPort = JPort(port: nat, kind: Option<nat>, kindName: string, cal: Option<nat>, ccs: Option<nat>,
                         devices: seq<JDevice>, pdevices: seq<JSlot>, attached: seq<JCpu>)

  datatype JXp = JXp(x: nat, y: nat, nPorts: Option<nat>, id: nat, logicalId: Option<nat>, dtc: Option<nat>, skipped: Option<nat>,
                     mcsEast: Option<nat>, mcsNorth: Option<nat>, ports: seq<JPort>)

  datatype JCmn = JCmn(about: string, isCmn600: bool, dimX: nat, dimY: nat, extraPorts: Option<bool>, xps: seq<JXp>)

  datatype LoadError =
    | WrongXpId | TooManyPorts | DuplicateXp | ExtraPortsDenied
    | BadPortNumber | BadNodeType | WrongNodeId | NoLogicalId | BadDeviceNumber | DuplicateCpu

  // ---------------------------------------------------------------- ports: loading

  /** What creation calls know about the port they work on. */
  datatype PortAt = PortAt(isCmn600: bool, cmnSeq: nat, xp: nat, number: nat, nPorts: nat, base: nat)

  function Span(at: PortAt): nat {
    if at.nPorts > 2 then 2 else 4
  }

  function SlotOf(p: Port, dn: nat): Slot {
    if dn in p.slots then p.slots[dn] else EMPTY_SLOT
  }

  function AddNode(at: PortAt, p: Port, j: JDevice): Result<Port, LoadError> {
    if j.kind == NODE_XP || j.kind == NODE_CFG then Err(BadNodeType)
    else if j.id - j.id % Span(at) != at.base && !at.isCmn600 then Err(WrongNodeId)
    else if j.kind == NODE_DT && j.logicalId == None then Err(NoLogicalId)
    else
      var dn := j.id % Span(at);
      var s := SlotOf(p, dn);
      Ok(p.(slots := p.slots[dn := s.(nodes := s.nodes + [DevNode(j.kind, j.kindName, j.id, j.logicalId)])]))
  }

  function AddSlot(at: PortAt, p: Port, j: JSlot): Result<Port, LoadError> {
    if j.deviceNumber >= Span(at) then Err(BadDeviceNumber)
    else
      var s := SlotOf(p, j.deviceNumber);
      Ok(p.(slots := p.slots[j.deviceNumber := if j.dcs.Some? then s.(dcs := j.dcs) else s]))
  }

  function AddCpu(at: PortAt, pc: (Port, CpuMap), j: JCpu): Result<(Port, CpuMap), LoadError> {
    var (p, cpus) := pc;
    var id := if j.id.Some? then j.id.value else at.base;
    if j.cpu in cpus then Err(DuplicateCpu)
    else if id < at.base || !NodeIds.IsValidId(at.base, at.nPorts, p.cal, id) || id - at.base >= Span(at) then Err(BadDeviceNumber)
    else
      var dn := id - at.base;
      var s := SlotOf(p, dn);
      Ok((p.(slots := p.slots[dn := s.(cpus := s.cpus + [Cpu(j.cpu, j.lpid)])]),
          cpus[j.cpu := Place(at.cmnSeq, at.xp, at.number, dn, j.lpid)]))
  }

  function AddNodes(at: PortAt, p: Port, l: seq<JDevice>): Result<Port, LoadError>
    decreases |l|
  {
    if l == [] then Ok(p)
    else
      match AddNode(at, p, l[0])
      case Err(e) => Err(e)
      case Ok(q) => AddNodes(at, q, l[1..])
  }

  function AddSlots(at: PortAt, p: Port, l: seq<JSlot>): Result<Port, LoadError>
    decreases |l|
  {
    if l == [] then Ok(p)
    else
      match AddSlot(at, p, l[0])
      case Err(e) => Err(e)
      case Ok(q) => AddSlots(at, q, l[1..])
  }

  function AddCpus(at: PortAt, pc: (Port, CpuMap), l: seq<JCpu>): Result<(Port, CpuMap), LoadError>
    decreases |l|
  {
    if l == [] then Ok(pc)
    else
      match AddCpu(at, pc, l[0])
      case Err(e) => Err(e)
      case Ok(q) => AddCpus(at, q, l[1..])
  }

  function LoadPort(at: PortAt, cpus: CpuMap, j: JPort): Result<(Port, CpuMap), LoadError>
    requires j.kind.Some?
  {
    if at.number > 3 then Err(BadPortNumber)
    else
      var p := Port(j.kind.value, j.kindName, if j.cal.Some? then j.cal.value else 0, j.ccs, map[]);
      match AddNodes(at, p, j.devices)
      case Err(e) => Err(e)
      case Ok(q) =>
        match AddSlots(at, q, j.pdevices)
        case Err(e) => Err(e)
        case Ok(r) => AddCpus(at, (r, cpus), j.attached)
  }

  /** Keys that a document may leave out: a CPU without an id is on the port's first device, a port without a CAL has none. */
  lemma MissingKeys(at: PortAt, pc: (Port, CpuMap), j: JCpu, p: JPort)
    requires p.kind.Some?
    ensures AddCpu(at, pc, j.(id := None)) == AddCpu(at, pc, j.(id := Some(at.base)))
    ensures LoadPort(at, pc.1, p.(cal := None)) == LoadPort(at, pc.1, p.(cal := Some(0)))
  {
    hide NodeIds.IsValidId, AddNodes, AddSlots, AddCpus;
  }

  // ---------------------------------------------------------------- ports: saving

  function JNodes(l: seq<DevNode>): seq<JDevice> {
    seq(|l|, i requires 0 <= i < |l| => JDevice(l[i].id, l[i].kind, l[i].kindName, l[i].logicalId))
  }

  function JCpus(at: PortAt, dn: nat, l: seq<Cpu>): seq<JCpu> {
    seq(|l|, i requires 0 <= i < |l| => JCpu(l[i].number, Some(at.base + dn), l[i].lpid))
  }

  /** Device nodes of the slots below n, by device number. */
  function SaveNodes(p: Port, n: nat): seq<JDevice> {
    if n == 0 then [] else SaveNodes(p, n - 1) + JNodes(SlotOf(p, n - 1).nodes)
  }

  predicate Explicit(s: Slot) {
    s.nodes != [] || s.dcs.Some?
  }

  /** Zero slices are not written. */
  function NonZero(n: Option<nat>): Option<nat> {
    if n == Some(0) then None else n
  }

  function SaveSlots(p: Port, n: nat): seq<JSlot> {
    if n == 0 then []
    else SaveSlots(p, n - 1)
         + (if Explicit(SlotOf(p, n - 1)) then [JSlot(n - 1, NonZero(SlotOf(p, n - 1).dcs))] else [])
  }

  function SaveCpus(at: PortAt, p: Port, n: nat): seq<JCpu> {
    if n == 0 then [] else SaveCpus(at, p, n - 1) + JCpus(at, n - 1, SlotOf(p, n - 1).cpus)
  }

  function SavePort(at: PortAt, p: Port): JPort {
    JPort(at.number, Some(p.kind), p.kindName,
          if p.cal != 0 then Some(p.cal) else None, if p.cal != 0 then p.ccs else None,
          SaveNodes(p, 4), SaveSlots(p, 4), SaveCpus(at, p, 4))
  }

  // ---------------------------------------------------------------- ports: round trip

  /** What discovery and CPU detection leave on a port. */
  ghost predicate ValidPort(at: PortAt, p: Port) {
    at.number <= 3 &&
    forall dn :: dn in p.slots ==>
      dn < Span(at) && (forall i :: 0 <= i < |p.slots[dn].nodes| ==> ValidNode(at, dn, p.slots[dn].nodes[i])) &&
      (p.slots[dn].cpus != [] ==> NodeIds.IsValidId(at.base, at.nPorts, p.cal, at.base + dn))
  }

  ghost predicate ValidNode(at: PortAt, dn: nat, n: DevNode) {
    n.kind != NODE_XP && n.kind != NODE_CFG && n.id % Span(at) == dn &&
    (n.id - n.id % Span(at) == at.base || at.isCmn600) && (n.kind == NODE_DT ==> n.logicalId.Some?)
  }

  /** A slot that nothing describes is not written. */
  predicate Described(s: Slot) {
    s.nodes != [] || s.dcs.Some? || s.cpus != []
  }

  /** A port as it comes back: zero slices absent, undescribed slots absent, CAL slices only with a CAL. */
  function NormalPort(p: Port): Port {
    p.(ccs := if p.cal != 0 then p.ccs else None,
       slots := map dn | dn in p.slots && Described(p.slots[dn]) :: p.slots[dn].(dcs := NonZero(p.slots[dn].dcs)))
  }

  lemma {:induction false} AddNodesConcat(at: PortAt, p: Port, a: seq<JDevice>, b: seq<JDevice>)
    requires AddNodes(at, p, a).Ok?
    ensures AddNodes(at, p, a + b) == AddNodes(at, AddNodes(at, p, a).value, b)
    decreases |a|
  {
    hide AddNode;
    if a == [] {
      assert a + b == b;
    } else {
      assert (a + b)[1..] == a[1..] + b;
      AddNodesConcat(at, AddNode(at, p, a[0]).value, a[1..], b);
    }
  }

  lemma {:induction false} AddSlotsConcat(at: PortAt, p: Port, a: seq<JSlot>, b: seq<JSlot>)
    requires AddSlots(at, p, a).Ok?
    ensures AddSlots(at, p, a + b) == AddSlots(at, AddSlots(at, p, a).value, b)
    decreases |a|
  {
    hide AddSlot;
    if a == [] {
      assert a + b == b;
    } else {
      assert (a + b)[1..] == a[1..] + b;
      AddSlotsConcat(at, AddSlot(at, p, a[0]).value, a[1..], b);
    }
  }

  lemma {:induction false} AddCpusConcat(at: PortAt, pc: (Port, CpuMap), a: seq<JCpu>, b: seq<JCpu>)
    requires AddCpus(at, pc, a).Ok?
    ensures AddCpus(at, pc, a + b) == AddCpus(at, AddCpus(at, pc, a).value, b)
    decreases |a|
  {
    hide AddCpu;
    if a == [] {
      assert a + b == b;
    } else {
      assert (a + b)[1..] == a[1..] + b;
      AddCpusConcat(at, AddCpu(at, pc, a[0]).value, a[1..], b);
    }
  }

  /** Is a slot there once its nodes, its description, its CPUs are loaded or not? */
  predicate Seen(s: Slot, nodes: bool, description: bool, cpus: bool) {
    (nodes && s.nodes != []) || (description && Explicit(s)) || (cpus && s.cpus != [])
  }

  function Part(s: Slot, nodes: bool, description: bool, cpus: bool): Slot {
    Slot(if description then NonZero(s.dcs) else None, if nodes then s.nodes else [], if cpus then s.cpus else [])
  }

  /** The slots once the nodes, the descriptions and the CPUs of those below three bounds are loaded. */
  function Rebuilt(p: Port, nodes: nat, slots: nat, cpus: nat): map<nat, Slot> {
    map dn | dn in p.slots && Seen(p.slots[dn], dn < nodes, dn < slots, dn < cpus) ::
      Part(p.slots[dn], dn < nodes, dn < slots, dn < cpus)
  }

  lemma RebuildNodes(p: Port, n: nat)
    ensures Rebuilt(p, 0, 0, 0) == map[]
    ensures n > 0 ==> n - 1 !in Rebuilt(p, n - 1, 0, 0)
    ensures n > 0 && SlotOf(p, n - 1).nodes == [] ==> Rebuilt(p, n, 0, 0) == Rebuilt(p, n - 1, 0, 0)
    ensures n > 0 && SlotOf(p, n - 1).nodes != [] ==>
              Rebuilt(p, n, 0, 0) == Rebuilt(p, n - 1, 0, 0)[n - 1 := Slot(None, SlotOf(p, n - 1).nodes, [])]
  {
    hide Explicit, NonZero;
  }

  lemma RebuildSlots(p: Port, n: nat)
    requires 0 < n <= 4
    ensures var s := SlotOf(p, n - 1);
            var before := Rebuilt(p, 4, n - 1, 0);
            if Explicit(s) then Rebuilt(p, 4, n, 0) == before[n - 1 := Slot(NonZero(s.dcs), s.nodes, [])]
            else Rebuilt(p, 4, n, 0) == before
    ensures var s := SlotOf(p, n - 1);
            var before := Rebuilt(p, 4, n - 1, 0);
            if s.nodes == [] then n - 1 !in before else n - 1 in before && before[n - 1] == Slot(None, s.nodes, [])
  {
  }

  lemma RebuildCpus(p: Port, n: nat)
    requires 0 < n <= 4
    ensures var s := SlotOf(p, n - 1);
            var before := Rebuilt(p, 4, 4, n - 1);
            if s.cpus != [] then Rebuilt(p, 4, 4, n) == before[n - 1 := Slot(NonZero(s.dcs), s.nodes, s.cpus)]
            else Rebuilt(p, 4, 4, n) == before
    ensures var s := SlotOf(p, n - 1);
            var before := Rebuilt(p, 4, 4, n - 1);
            if Explicit(s) then n - 1 in before && before[n - 1] == Slot(NonZero(s.dcs), s.nodes, [])
            else n - 1 !in before && s.nodes == [] && NonZero(s.dcs) == None
  {
  }

  /** Loading the nodes of one slot appends them to it. */
  lemma {:induction false} LoadSlotNodes(at: PortAt, p: Port, dn: nat, l: seq<DevNode>)
    requires forall i :: 0 <= i < |l| ==> ValidNode(at, dn, l[i])
    ensures AddNodes(at, p, JNodes(l))
         == Ok(if l == [] then p else p.(slots := p.slots[dn := SlotOf(p, dn).(nodes := SlotOf(p, dn).nodes + l)]))
    decreases |l|
  {
    if l != [] {
      var j := JNodes(l);
      var s := SlotOf(p, dn);
      assert j[1..] == JNodes(l[1..]);
      var q := p.(slots := p.slots[dn := s.(nodes := s.nodes + [l[0]])]);
      assert AddNode(at, p, j[0]) == Ok(q) by {
        assert ValidNode(at, dn, l[0]);
      }
      LoadSlotNodes(at, q, dn, l[1..]);
      assert s.nodes + [l[0]] + l[1..] == s.nodes + l;
      assert l[1..] == [] ==> l == [l[0]];
      var whole := s.(nodes := s.nodes + l);
      PutTwice(p.slots, dn, s.(nodes := s.nodes + [l[0]]), whole);
    }
  }

  lemma {:induction false} LoadNodes(at: PortAt, p0: Port, p: Port, n: nat)
    requires ValidPort(at, p) && p0.slots == map[]
    ensures AddNodes(at, p0, SaveNodes(p, n)) == Ok(p0.(slots := Rebuilt(p, n, 0, 0)))
  {
    RebuildNodes(p, n);
    if n > 0 {
      var l := SlotOf(p, n - 1).nodes;
      var q := p0.(slots := Rebuilt(p, n - 1, 0, 0));
      LoadNodes(at, p0, p, n - 1);
      AddNodesConcat(at, p0, SaveNodes(p, n - 1), JNodes(l));
      LoadSlotNodes(at, q, n - 1, l) by {
        hide Rebuilt, ValidNode;
      }
      hide Rebuilt, ValidPort, AddNodes, JNodes;
      assert SlotOf(q, n - 1).nodes + l == l;
    }
  }

  lemma {:induction false} LoadSlots(at: PortAt, p0: Port, p: Port, n: nat)
    requires ValidPort(at, p) && n <= 4
    ensures AddSlots(at, p0.(slots := Rebuilt(p, 4, 0, 0)), SaveSlots(p, n)) == Ok(p0.(slots := Rebuilt(p, 4, n, 0)))
  {
    hide Rebuilt, ValidNode;
    if n > 0 {
      var s := SlotOf(p, n - 1);
      var start := p0.(slots := Rebuilt(p, 4, 0, 0));
      var more := if Explicit(s) then [JSlot(n - 1, NonZero(s.dcs))] else [];
      RebuildSlots(p, n);
      LoadSlots(at, p0, p, n - 1);
      AddSlotsConcat(at, start, SaveSlots(p, n - 1), more);
      assert Explicit(s) ==> more[1..] == [];
    }
  }

  // ---------------------------------------------------------------- CPUs

  lemma MergeThrice<K, V>(a: map<K, V>, b: map<K, V>, c: map<K, V>)
    ensures (a + b) + c == a + (b + c)
  {
  }

  lemma PutThenMerge<K, V>(a: map<K, V>, k: K, v: V, b: map<K, V>)
    ensures a[k := v] + b == a + (map[k := v] + b)
  {
  }

  lemma PutTwice<K, V>(a: map<K, V>, k: K, v: V, w: V)
    ensures a[k := v][k := w] == a[k := w]
  {
  }

  lemma MergeNothing<K, V>(a: map<K, V>)
    ensures a + map[] == a && map[] + a == a
  {
  }

  function Entry(at: PortAt, j: JCpu): Place {
    Place(at.cmnSeq, at.xp, at.number, if j.id.Some? && j.id.value >= at.base then j.id.value - at.base else 0, j.lpid)
  }

  /** The entries that attached CPUs make in the system's map. */
  function CpuEntries(at: PortAt, l: seq<JCpu>): CpuMap
    decreases |l|
  {
    if l == [] then map[]
    else map[l[0].cpu := Entry(at, l[0])] + CpuEntries(at, l[1..])
  }

  lemma {:induction false} CpuEntriesConcat(at: PortAt, a: seq<JCpu>, b: seq<JCpu>)
    ensures CpuEntries(at, a + b) == CpuEntries(at, a) + CpuEntries(at, b)
    decreases |a|
  {
    hide Entry;
    if a == [] {
      assert a + b == b;
      MergeNothing(CpuEntries(at, b));
    } else {
      CpuEntriesConcat(at, a[1..], b);
      assert (a + b)[1..] == a[1..] + b;
      MergeThrice(map[a[0].cpu := Entry(at, a[0])], CpuEntries(at, a[1..]), CpuEntries(at, b));
    }
  }

  /** CPU numbers that are not known yet, each once. */
  ghost predicate Fresh(cpus: CpuMap, l: seq<JCpu>) {
    (forall i :: 0 <= i < |l| ==> l[i].cpu !in cpus) &&
    (forall i, j :: 0 <= i < j < |l| ==> l[i].cpu != l[j].cpu)
  }

  /** The port and the map after one more CPU of a slot. */
  function WithCpu(at: PortAt, pc: (Port, CpuMap), dn: nat, c: Cpu): (Port, CpuMap) {
    var s := SlotOf(pc.0, dn);
    (pc.0.(slots := pc.0.slots[dn := s.(cpus := s.cpus + [c])]),
     pc.1[c.number := Entry(at, JCpu(c.number, Some(at.base + dn), c.lpid))])
  }

  lemma LoadCpu(at: PortAt, pc: (Port, CpuMap), dn: nat, l: seq<Cpu>)
    requires l != [] && Fresh(pc.1, JCpus(at, dn, l))
    requires dn < Span(at) && NodeIds.IsValidId(at.base, at.nPorts, pc.0.cal, at.base + dn)
    ensures AddCpu(at, pc, JCpus(at, dn, l)[0]) == Ok(WithCpu(at, pc, dn, l[0]))
    ensures Fresh(WithCpu(at, pc, dn, l[0]).1, JCpus(at, dn, l[1..]))
  {
    hide NodeIds.IsValidId;
    var j, rest := JCpus(at, dn, l), JCpus(at, dn, l[1..]);
    assert l[0].number == j[0].cpu;
    forall i | 0 <= i < |rest|
      ensures rest[i] == j[i + 1]
    {
    }
  }

  lemma {:induction false} LoadSlotCpus(at: PortAt, pc: (Port, CpuMap), dn: nat, l: seq<Cpu>)
    requires Fresh(pc.1, JCpus(at, dn, l))
    requires l != [] ==> dn < Span(at) && NodeIds.IsValidId(at.base, at.nPorts, pc.0.cal, at.base + dn)
    ensures var (p, cpus) := pc;
            AddCpus(at, pc, JCpus(at, dn, l))
            == Ok((if l == [] then p else p.(slots := p.slots[dn := SlotOf(p, dn).(cpus := SlotOf(p, dn).cpus + l)]),
                   cpus + CpuEntries(at, JCpus(at, dn, l))))
    decreases |l|
  {
    hide NodeIds.IsValidId, AddCpu, Fresh, Entry;
    var (p, cpus) := pc;
    var j := JCpus(at, dn, l);
    if l == [] {
      MergeNothing(cpus);
    } else {
      var s := SlotOf(p, dn);
      var q := WithCpu(at, pc, dn, l[0]);
      LoadCpu(at, pc, dn, l);
      LoadSlotCpus(at, q, dn, l[1..]);
      assert j[1..] == JCpus(at, dn, l[1..]);
      assert s.cpus + [l[0]] + l[1..] == s.cpus + l;
      assert l[1..] == [] ==> l == [l[0]];
      var whole := s.(cpus := s.cpus + l);
      PutTwice(p.slots, dn, s.(cpus := s.cpus + [l[0]]), whole);
      PutThenMerge(cpus, j[0].cpu, Entry(at, j[0]), CpuEntries(at, j[1..]));
    }
  }

  lemma AddNoCpus(at: PortAt, pc: (Port, CpuMap))
    ensures AddCpus(at, pc, []) == Ok((pc.0, pc.1 + CpuEntries(at, [])))
  {
    MergeNothing(pc.1);
  }

  lemma {:induction false} LoadCpus(at: PortAt, p0: Port, p: Port, cpus: CpuMap, n: nat)
    requires ValidPort(at, p) && p0.cal == p.cal && n <= 4 && Fresh(cpus, SaveCpus(at, p, n))
    ensures AddCpus(at, (p0.(slots := Rebuilt(p, 4, 4, 0)), cpus), SaveCpus(at, p, n))
         == Ok((p0.(slots := Rebuilt(p, 4, 4, n)), cpus + CpuEntries(at, SaveCpus(at, p, n))))
  {
    hide Rebuilt, ValidNode, AddCpu, Fresh, NodeIds.IsValidId, AddCpus, CpuEntries, JCpus;
    if n == 0 {
      AddNoCpus(at, (p0.(slots := Rebuilt(p, 4, 4, 0)), cpus));
    } else {
      var l := SlotOf(p, n - 1).cpus;
      var before, more := SaveCpus(at, p, n - 1), JCpus(at, n - 1, l);
      var start := (p0.(slots := Rebuilt(p, 4, 4, 0)), cpus);
      FreshSplit(cpus, at, before, more);
      LoadCpus(at, p0, p, cpus, n - 1);
      AddCpusConcat(at, start, before, more);
      RebuildCpus(p, n);
      var mid := (p0.(slots := Rebuilt(p, 4, 4, n - 1)), cpus + CpuEntries(at, before));
      LoadSlotCpus(at, mid, n - 1, l);
      CpuEntriesConcat(at, before, more);
      MergeThrice(cpus, CpuEntries(at, before), CpuEntries(at, more));
      assert SlotOf(mid.0, n - 1).cpus + l == l;
    }
  }

  lemma {:induction false} EntriesKeys(at: PortAt, l: seq<JCpu>)
    ensures forall k :: k in CpuEntries(at, l) <==> exists i :: 0 <= i < |l| && l[i].cpu == k
    decreases |l|
  {
    if l != [] {
      EntriesKeys(at, l[1..]);
    }
  }

  lemma FreshSplit(cpus: CpuMap, at: PortAt, a: seq<JCpu>, b: seq<JCpu>)
    requires Fresh(cpus, a + b)
    ensures Fresh(cpus, a) && Fresh(cpus + CpuEntries(at, a), b)
  {
    EntriesKeys(at, a);
    assert forall i :: 0 <= i < |a| ==> (a + b)[i] == a[i];
    assert forall j :: 0 <= j < |b| ==> (a + b)[|a| + j] == b[j];
    forall i, j | 0 <= i < |a| && 0 <= j < |b|
      ensures a[i].cpu != b[j].cpu
    {
      assert (a + b)[i].cpu != (a + b)[|a| + j].cpu;
    }
    forall i, j | 0 <= i < j < |b|
      ensures b[i].cpu != b[j].cpu
    {
      assert (a + b)[|a| + i].cpu != (a + b)[|a| + j].cpu;
    }
  }

  lemma RebuildAll(at: PortAt, p: Port)
    requires ValidPort(at, p)
    ensures Rebuilt(p, 4, 4, 4) == NormalPort(p).slots
  {
    hide ValidNode, NonZero, NodeIds.IsValidId;
  }

  /** A saved port loads, as its normal form, and puts its CPUs on the map. */
  lemma PortRoundTrip(at: PortAt, p: Port, cpus: CpuMap)
    requires ValidPort(at, p) && Fresh(cpus, SaveCpus(at, p, 4))
    ensures LoadPort(at, cpus, SavePort(at, p)) == Ok((NormalPort(p), cpus + CpuEntries(at, SaveCpus(at, p, 4))))
  {
    var p0 := Port(p.kind, p.kindName, p.cal, if p.cal != 0 then p.ccs else None, map[]);
    LoadNodes(at, p0, p, 4);
    LoadSlots(at, p0, p, 4);
    LoadCpus(at, p0, p, cpus, 4);
    RebuildAll(at, p);
    hide Rebuilt, AddNodes, AddSlots, AddCpus, SaveNodes, SaveSlots, SaveCpus, CpuEntries, Fresh, ValidNode;
    assert p0.(slots := map[]) == p0;
    assert p0.(slots := NormalPort(p).slots) == NormalPort(p);
  }
}
