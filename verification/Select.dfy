/**
 Selecting nodes of a mesh.  The traversal skips XPs and ports at which a selector cannot
 match anything; it should still yield what filtering a full traversal would.
 */
module Select {
  import opened Options

  const NODE_CFG := 2
  const NODE_XP := 6

  /** Properties are sets of bits; having properties means having all their bits. */
  type Props = set<nat>

  const PROP_DEV: Props := {26}
  const PROP_CHI: Props := PROP_DEV + {25}
  const PROP_RN: Props := PROP_CHI + {0}
  const PROP_HN: Props := PROP_CHI + {1}
  const PROP_DVMR: Props := PROP_CHI + {6}
  const PROP_F: Props := PROP_CHI + {7}
  const PROP_RNF: Props := PROP_RN + PROP_F + PROP_DVMR
  const PROP_HNF: Props := PROP_HN + PROP_F
  const PROP_MPAM: Props := PROP_DEV + {9}

  /** The bits of the properties that matter here, all together. */
  lemma PropertyBits()
    ensures PROP_RNF == {0, 6, 7, 25, 26} && PROP_HNF == {1, 7, 25, 26} && PROP_MPAM == {9, 26}
  {
  }

  datatype Node =
    | RootNode(cmnSeq: nat, logicalId: Option<nat>, props: Props)
    | XpNode(cmnSeq: nat, x: nat, y: nat, id: nat, logicalId: Option<nat>, props: Props)
    | DevNode(cmnSeq: nat, x: nat, y: nat, port: nat, device: nat, kind: nat, id: nat, logicalId: Option<nat>,
              props: Props, cpus: set<nat>, onRnfPort: bool)
  {
    function Type(): nat {
      match this
      case RootNode(_, _, _) => NODE_CFG
      case XpNode(_, _, _, _, _, _) => NODE_XP
      case DevNode(_, _, _, _, _, kind, _, _, _, _, _) => kind
    }
  }

  datatype Port = Port(number: nat, props: Props, nodes: seq<Node>)

  datatype Xp = Xp(node: Node, ports: seq<Port>)

  /** cpuCmn: on which mesh each known CPU is; empty when there are no CPU mappings. */
  datatype Cmn = Cmn(seqNo: nat, root: Option<Node>, xps: seq<Xp>, cpuCmn: map<nat, nat>)

  /** One selection expression; None matches anything. */
  datatype Single = Single(cmnSeq: Option<nat>, cpu: Option<nat>, x: Option<nat>, y: Option<nat>, port: Option<nat>,
                           device: Option<nat>, kind: Option<nat>, nodeId: Option<nat>, logicalId: Option<nat>,
                           props: Option<Props>)

  /** Several expressions; none at all matches everything, as having no selector does. */
  type Selector = seq<Single>

  // ---------------------------------------------------------------- matching

  predicate Agrees<T(==)>(wanted: Option<T>, actual: T) {
    wanted.Some? ==> wanted.value == actual
  }

  predicate MatchSingle(m: Single, n: Node) {
    && Agrees(m.cmnSeq, n.cmnSeq)
    && (m.cpu.Some? ==> n.DevNode? && n.onRnfPort && m.cpu.value in n.cpus)
    && (m.x.Some? ==> !n.RootNode? && m.x.value == n.x)
    && (m.y.Some? ==> !n.RootNode? && m.y.value == n.y)
    && (m.port.Some? ==> n.DevNode? && m.port.value == n.port)
    && (m.device.Some? ==> n.DevNode? && m.device.value == n.device)
    && Agrees(m.kind, n.Type())
    && (m.nodeId.Some? ==> !n.RootNode? && m.nodeId.value == n.id)
    && (m.logicalId.Some? ==> m.logicalId == n.logicalId)
    && (m.props.Some? ==> m.props.value <= n.props)
  }

  predicate SingleCanMatchCmn(m: Single, c: Cmn) {
    Agrees(m.cmnSeq, c.seqNo) &&
    (m.cpu.Some? ==> m.cpu.value in c.cpuCmn && c.cpuCmn[m.cpu.value] == c.seqNo)
  }

  predicate SingleCanMatchXp(m: Single, c: Cmn, xp: Xp)
    requires xp.node.XpNode?
  {
    && SingleCanMatchCmn(m, c)
    && (m.cpu.Some? ==> exists p :: p in xp.ports && PROP_RNF <= p.props)
    && Agrees(m.x, xp.node.x)
    && Agrees(m.y, xp.node.y)
    && (m.nodeId.Some? ==> m.nodeId.value - m.nodeId.value % 8 == xp.node.id)
    && m.kind != Some(NODE_CFG) && m.kind != Some(NODE_XP)
  }

  predicate SingleCanMatchPort(m: Single, c: Cmn, xp: Xp, p: Port)
    requires xp.node.XpNode?
  {
    && SingleCanMatchXp(m, c, xp)
    && (m.cpu.Some? ==> PROP_RNF <= p.props)
    && Agrees(m.port, p.number)
    && (m.props.Some? ==> m.props.value <= p.props)
  }

  predicate Match(sel: Selector, n: Node) {
    sel == [] || exists m :: m in sel && MatchSingle(m, n)
  }

  predicate CanMatchCmn(sel: Selector, c: Cmn) {
    sel == [] || exists m :: m in sel && SingleCanMatchCmn(m, c)
  }

  predicate CanMatchXp(sel: Selector, c: Cmn, xp: Xp)
    requires xp.node.XpNode?
  {
    sel == [] || exists m :: m in sel && SingleCanMatchXp(m, c, xp)
  }

  predicate CanMatchPort(sel: Selector, c: Cmn, xp: Xp, p: Port)
    requires xp.node.XpNode?
  {
    sel == [] || exists m :: m in sel && SingleCanMatchPort(m, c, xp, p)
  }

  // ---------------------------------------------------------------- what an expression asks for

  /** The expression that asks for nothing. */
  const ANYTHING := Single(None, None, None, None, None, None, None, None, None, None)

  lemma AnythingMatches(n: Node)
    ensures MatchSingle(ANYTHING, n) && Match([ANYTHING], n) && Match([], n)
  {
    assert ANYTHING in [ANYTHING];
  }

  /** Alternatives match what one of them matches. */
  lemma AlternativesMatch(a: Selector, b: Selector, m: Single, n: Node)
    ensures Match([m], n) == MatchSingle(m, n)
    ensures a != [] && b != [] ==> Match(a + b, n) == (Match(a, n) || Match(b, n))
  {
    hide MatchSingle;
    assert forall x :: x in [m] ==> x == m;
    assert m in [m];
    assert forall x :: x in a + b <==> x in a || x in b;
  }

  /** Asking for a place or an id in addition narrows a match to the nodes that have it. */
  lemma PlaceNarrows(m: Single, n: Node, v: nat)
    ensures m.cmnSeq == None ==> MatchSingle(m.(cmnSeq := Some(v)), n) == (MatchSingle(m, n) && n.cmnSeq == v)
    ensures m.x == None ==> MatchSingle(m.(x := Some(v)), n) == (MatchSingle(m, n) && (n.XpNode? || n.DevNode?) && n.x == v)
    ensures m.y == None ==> MatchSingle(m.(y := Some(v)), n) == (MatchSingle(m, n) && (n.XpNode? || n.DevNode?) && n.y == v)
    ensures m.port == None ==> MatchSingle(m.(port := Some(v)), n) == (MatchSingle(m, n) && n.DevNode? && n.port == v)
    ensures m.device == None ==> MatchSingle(m.(device := Some(v)), n) == (MatchSingle(m, n) && n.DevNode? && n.device == v)
    ensures m.nodeId == None ==> MatchSingle(m.(nodeId := Some(v)), n) == (MatchSingle(m, n) && (n.XpNode? || n.DevNode?) && n.id == v)
  {
  }

  /** And so does asking for a type, a logical id, a CPU, or properties, of which a node must have all. */
  lemma KindNarrows(m: Single, n: Node, v: nat, props: Props)
    ensures m.kind == None ==> MatchSingle(m.(kind := Some(v)), n) == (MatchSingle(m, n) && n.Type() == v)
    ensures m.logicalId == None ==> MatchSingle(m.(logicalId := Some(v)), n) == (MatchSingle(m, n) && n.logicalId == Some(v))
    ensures m.cpu == None ==> MatchSingle(m.(cpu := Some(v)), n) == (MatchSingle(m, n) && n.DevNode? && n.onRnfPort && v in n.cpus)
    ensures m.props == None ==>
              MatchSingle(m.(props := Some(props)), n) == (MatchSingle(m, n) && forall bit :: bit in props ==> bit in n.props)
  {
  }

  /** Only device nodes have a port, a device number or CPUs; only they and XPs have coordinates and an id. */
  lemma RootsAndXpsHaveNoPlace(m: Single, n: Node)
    ensures !n.DevNode? && (m.port.Some? || m.device.Some? || m.cpu.Some?) ==> !MatchSingle(m, n)
    ensures n.RootNode? && (m.x.Some? || m.y.Some? || m.nodeId.Some?) ==> !MatchSingle(m, n)
  {
  }

  // ---------------------------------------------------------------- full traversal and filter

  function PortNodes(ports: seq<Port>): seq<Node> {
    if ports == [] then [] else PortNodes(ports[..|ports| - 1]) + ports[|ports| - 1].nodes
  }

  function XpNodes(xp: Xp, xps: bool, devices: bool): seq<Node> {
    (if xps then [xp.node] else []) + (if devices then PortNodes(xp.ports) else [])
  }

  function MeshNodes(l: seq<Xp>, xps: bool, devices: bool): seq<Node> {
    if l == [] then [] else MeshNodes(l[..|l| - 1], xps, devices) + XpNodes(l[|l| - 1], xps, devices)
  }

  /** Every node of a mesh: the root, then each XP followed by the nodes of its ports. */
  function AllNodes(c: Cmn, root: bool, xps: bool, devices: bool): seq<Node> {
    (if root && c.root.Some? then [c.root.value] else []) + MeshNodes(c.xps, xps, devices)
  }

  /** Order of a traversal: the root, then by coordinates, and at one place the XP before its devices, by port. */
  predicate Precedes(a: Node, b: Node) {
    match a
    case RootNode(_, _, _) => !b.RootNode?
    case XpNode(_, _, _, _, _, _) => !b.RootNode? && (LeftOf(a.x, a.y, b.x, b.y) || (a.x == b.x && a.y == b.y && b.DevNode?))
    case DevNode(_, _, _, _, _, _, _, _, _, _, _) =>
      !b.RootNode? && (LeftOf(a.x, a.y, b.x, b.y) || (a.x == b.x && a.y == b.y && b.DevNode? && a.port <= b.port))
  }

  predicate LeftOf(x: nat, y: nat, u: nat, v: nat) {
    x < u || (x == u && y < v)
  }

  predicate InOrder(s: seq<Node>) {
    forall i, j :: 0 <= i < j < |s| ==> Precedes(s[i], s[j])
  }

  lemma InOrderConcat(s: seq<Node>, t: seq<Node>)
    requires InOrder(s) && InOrder(t) && forall a, b :: a in s && b in t ==> Precedes(a, b)
    ensures InOrder(s + t)
  {
    hide Precedes;
    var u := s + t;
    forall i, j | 0 <= i < j < |u|
      ensures Precedes(u[i], u[j])
    {
      if i < |s| && j >= |s| {
        assert u[i] in s && u[j] in t;
      }
    }
  }

  /** XPs in the order of their coordinates, each with its ports by number and its nodes on them. */
  ghost predicate Arranged(l: seq<Xp>) {
    (forall i, j :: 0 <= i < j < |l| && l[i].node.XpNode? && l[j].node.XpNode? ==>
      LeftOf(l[i].node.x, l[i].node.y, l[j].node.x, l[j].node.y)) &&
    forall i :: 0 <= i < |l| ==> l[i].node.XpNode? && PortsArranged(l[i].ports, l[i].node.x, l[i].node.y)
  }

  ghost predicate PortsArranged(ports: seq<Port>, x: nat, y: nat) {
    (forall i, j :: 0 <= i < j < |ports| ==> ports[i].number < ports[j].number) &&
    forall i, k :: 0 <= i < |ports| && 0 <= k < |ports[i].nodes| ==> IsAt(ports[i].nodes[k], x, y, ports[i].number)
  }

  predicate IsAt(n: Node, x: nat, y: nat, port: nat) {
    n.DevNode? && n.x == x && n.y == y && n.port == port
  }

  lemma NodeIsAt(ports: seq<Port>, x: nat, y: nat, i: int, n: Node)
    requires PortsArranged(ports, x, y) && 0 <= i < |ports| && n in ports[i].nodes
    ensures IsAt(n, x, y, ports[i].number)
  {
    var k :| 0 <= k < |ports[i].nodes| && ports[i].nodes[k] == n;
  }

  lemma {:induction false} PortNodesInOrder(ports: seq<Port>, x: nat, y: nat)
    requires PortsArranged(ports, x, y)
    ensures InOrder(PortNodes(ports))
    ensures forall n :: n in PortNodes(ports) <==> exists i :: 0 <= i < |ports| && n in ports[i].nodes
    ensures forall n :: n in PortNodes(ports) ==> n.DevNode? && n.x == x && n.y == y
  {
    if ports != [] {
      var k := |ports| - 1;
      var init, last := ports[..k], ports[k];
      PortNodesInOrder(init, x, y);
      forall n | n in last.nodes
        ensures IsAt(n, x, y, last.number)
      {
        NodeIsAt(ports, x, y, k, n);
      }
      OnePortInOrder(last.nodes, x, y, last.number);
      forall a, b | a in PortNodes(init) && b in last.nodes
        ensures Precedes(a, b)
      {
        var i :| 0 <= i < k && a in init[i].nodes;
        NodeIsAt(ports, x, y, i, a);
      }
      InOrderConcat(PortNodes(init), last.nodes);
    }
  }

  lemma OnePortInOrder(s: seq<Node>, x: nat, y: nat, port: nat)
    requires forall n :: n in s ==> IsAt(n, x, y, port)
    ensures InOrder(s)
  {
    forall i, j | 0 <= i < j < |s|
      ensures Precedes(s[i], s[j])
    {
      assert s[i] in s && s[j] in s;
    }
  }

  /** A node of an XP, as a traversal with or without XPs and devices should find it. */
  ghost predicate IsOf(n: Node, xp: Xp, xps: bool, devices: bool) {
    (xps && n == xp.node) || (devices && exists i :: 0 <= i < |xp.ports| && n in xp.ports[i].nodes)
  }

  lemma XpNodesInOrder(xp: Xp, xps: bool, devices: bool)
    requires xp.node.XpNode? && PortsArranged(xp.ports, xp.node.x, xp.node.y)
    ensures InOrder(XpNodes(xp, xps, devices))
    ensures forall n :: n in XpNodes(xp, xps, devices) <==> IsOf(n, xp, xps, devices)
    ensures forall n :: n in XpNodes(xp, xps, devices) ==> !n.RootNode? && n.x == xp.node.x && n.y == xp.node.y
  {
    PortNodesInOrder(xp.ports, xp.node.x, xp.node.y);
    hide PortsArranged, PortNodes;
    var head, tail := if xps then [xp.node] else [], if devices then PortNodes(xp.ports) else [];
    InOrderConcat(head, tail);
    assert XpNodes(xp, xps, devices) == head + tail;
  }

  lemma {:induction false} MeshNodesInOrder(l: seq<Xp>, xps: bool, devices: bool)
    requires Arranged(l)
    ensures InOrder(MeshNodes(l, xps, devices))
    ensures forall n :: n in MeshNodes(l, xps, devices) <==> exists i :: 0 <= i < |l| && IsOf(n, l[i], xps, devices)
    ensures forall n :: n in MeshNodes(l, xps, devices) ==> !n.RootNode?
  {
    hide IsOf, PortsArranged, XpNodes;
    if l != [] {
      var k := |l| - 1;
      MeshNodesInOrder(l[..k], xps, devices);
      XpNodesInOrder(l[k], xps, devices);
      forall a, b | a in MeshNodes(l[..k], xps, devices) && b in XpNodes(l[k], xps, devices)
        ensures Precedes(a, b)
      {
        var i :| 0 <= i < k && IsOf(a, l[..k][i], xps, devices);
        XpNodesInOrder(l[i], xps, devices);
        assert a in XpNodes(l[i], xps, devices);
      }
      InOrderConcat(MeshNodes(l[..k], xps, devices), XpNodes(l[k], xps, devices));
    }
  }

  /** The full traversal has just the mesh's nodes of the kinds asked for, in order of coordinates. */
  lemma AllNodesInOrder(c: Cmn, root: bool, xps: bool, devices: bool)
    requires Arranged(c.xps) && (c.root.Some? ==> c.root.value.RootNode?)
    ensures InOrder(AllNodes(c, root, xps, devices))
    ensures forall n :: n in AllNodes(c, root, xps, devices) <==>
              (root && c.root == Some(n)) || exists i :: 0 <= i < |c.xps| && IsOf(n, c.xps[i], xps, devices)
  {
    MeshNodesInOrder(c.xps, xps, devices);
    hide IsOf, Arranged, MeshNodes;
    InOrderConcat(if root && c.root.Some? then [c.root.value] else [], MeshNodes(c.xps, xps, devices));
  }

  /** Filtering keeps just the nodes that match. */
  lemma {:induction false} FilterKeepsMatches(sel: Selector, s: seq<Node>)
    ensures forall n :: n in Filter(sel, s) <==> n in s && Match(sel, n)
  {
    hide Match;
    if s != [] {
      FilterKeepsMatches(sel, s[..|s| - 1]);
      assert s == s[..|s| - 1] + [s[|s| - 1]];
    }
  }

  function Filter(sel: Selector, s: seq<Node>): seq<Node> {
    if s == [] then []
    else Filter(sel, s[..|s| - 1]) + (if Match(sel, s[|s| - 1]) then [s[|s| - 1]] else [])
  }

  lemma {:induction false} FilterConcat(sel: Selector, s: seq<Node>, t: seq<Node>)
    ensures Filter(sel, s + t) == Filter(sel, s) + Filter(sel, t)
  {
    if t == [] {
      assert s + t == s;
    } else {
      FilterConcat(sel, s, t[..|t| - 1]);
      assert (s + t)[..|s + t| - 1] == s + t[..|t| - 1];
    }
  }

  // ---------------------------------------------------------------- pruned traversal

  function PrunedPorts(sel: Selector, c: Cmn, xp: Xp, ports: seq<Port>): seq<Node>
    requires xp.node.XpNode?
  {
    if ports == [] then []
    else
      var p := ports[|ports| - 1];
      PrunedPorts(sel, c, xp, ports[..|ports| - 1]) + (if CanMatchPort(sel, c, xp, p) then Filter(sel, p.nodes) else [])
  }

  function PrunedXp(sel: Selector, c: Cmn, xp: Xp, xps: bool, devices: bool): seq<Node>
    requires xp.node.XpNode?
  {
    (if xps && Match(sel, xp.node) then [xp.node] else [])
    + (if devices && CanMatchXp(sel, c, xp) then PrunedPorts(sel, c, xp, xp.ports) else [])
  }

  function PrunedXps(sel: Selector, c: Cmn, l: seq<Xp>, xps: bool, devices: bool): seq<Node>
    requires forall i :: 0 <= i < |l| ==> l[i].node.XpNode?
  {
    if l == [] then []
    else PrunedXps(sel, c, l[..|l| - 1], xps, devices) + PrunedXp(sel, c, l[|l| - 1], xps, devices)
  }

  function Pruned(sel: Selector, c: Cmn, root: bool, xps: bool, devices: bool): seq<Node>
    requires XpsAreXps(c)
  {
    (if root && c.root.Some? && Match(sel, c.root.value) then [c.root.value] else [])
    + (if CanMatchCmn(sel, c) then PrunedXps(sel, c, c.xps, xps, devices) else [])
  }

  predicate XpsAreXps(c: Cmn) {
    forall i :: 0 <= i < |c.xps| ==> c.xps[i].node.XpNode?
  }

  method IterPortNodes(sel: Selector, p: Port) returns (out: seq<Node>)
    ensures out == Filter(sel, p.nodes)
  {
    hide Match;
    out := [];
    for k := 0 to |p.nodes|
      invariant out == Filter(sel, p.nodes[..k])
    {
      assert p.nodes[..k + 1][..k] == p.nodes[..k];
      if Match(sel, p.nodes[k]) {
        out := out + [p.nodes[k]];
      }
    }
    assert p.nodes[..|p.nodes|] == p.nodes;
  }

  lemma PrunedNoPorts(sel: Selector, c: Cmn, xp: Xp)
    requires xp.node.XpNode?
    ensures PrunedPorts(sel, c, xp, xp.ports[..0]) == []
  {
  }

  lemma PrunedNextPort(sel: Selector, c: Cmn, xp: Xp, i: nat)
    requires xp.node.XpNode? && i < |xp.ports|
    ensures PrunedPorts(sel, c, xp, xp.ports[..i + 1])
         == PrunedPorts(sel, c, xp, xp.ports[..i]) + (if CanMatchPort(sel, c, xp, xp.ports[i]) then Filter(sel, xp.ports[i].nodes) else [])
  {
    hide CanMatchPort, Filter;
    assert xp.ports[..i + 1][..i] == xp.ports[..i];
  }

  /** The generator for one XP, as the source's loops run. */
  method IterXpNodes(sel: Selector, c: Cmn, xp: Xp, xps: bool, devices: bool) returns (out: seq<Node>)
    requires xp.node.XpNode?
    ensures out == PrunedXp(sel, c, xp, xps, devices)
  {
    hide Match, CanMatchXp, CanMatchPort, PrunedPorts, Filter;
    out := [];
    if xps && Match(sel, xp.node) {
      out := [xp.node];
    }
    if !devices || !CanMatchXp(sel, c, xp) {
      return;
    }
    ghost var start := out;
    PrunedNoPorts(sel, c, xp);
    for i := 0 to |xp.ports|
      invariant out == start + PrunedPorts(sel, c, xp, xp.ports[..i])
    {
      var p := xp.ports[i];
      PrunedNextPort(sel, c, xp, i);
      if CanMatchPort(sel, c, xp, p) {
        var more := IterPortNodes(sel, p);
        out := out + more;
      }
    }
    assert xp.ports[..|xp.ports|] == xp.ports;
  }

  lemma PrunedNoXps(sel: Selector, c: Cmn, xps: bool, devices: bool)
    requires XpsAreXps(c)
    ensures PrunedXps(sel, c, c.xps[..0], xps, devices) == []
  {
  }

  lemma PrunedNextXp(sel: Selector, c: Cmn, i: nat, xps: bool, devices: bool)
    requires XpsAreXps(c) && i < |c.xps|
    ensures PrunedXps(sel, c, c.xps[..i + 1], xps, devices)
         == PrunedXps(sel, c, c.xps[..i], xps, devices) + PrunedXp(sel, c, c.xps[i], xps, devices)
  {
    hide PrunedXp;
    assert c.xps[..i + 1][..i] == c.xps[..i];
  }

  method IterCmnNodes(sel: Selector, c: Cmn, root: bool, xps: bool, devices: bool) returns (out: seq<Node>)
    requires XpsAreXps(c)
    ensures out == Pruned(sel, c, root, xps, devices)
  {
    hide Match, CanMatchCmn, PrunedXp, PrunedXps;
    PrunedNoXps(sel, c, xps, devices);
    out := [];
    if root && c.root.Some? && Match(sel, c.root.value) {
      out := [c.root.value];
    }
    ghost var start := out;
    if !CanMatchCmn(sel, c) {
      return;
    }
    if !xps && !devices {
      NothingIncluded(sel, c, c.xps);
      return;
    }
    for i := 0 to |c.xps|
      invariant out == start + PrunedXps(sel, c, c.xps[..i], xps, devices)
    {
      PrunedNextXp(sel, c, i, xps, devices);
      var more := IterXpNodes(sel, c, c.xps[i], xps, devices);
      out := out + more;
    }
    assert c.xps[..|c.xps|] == c.xps;
  }

  lemma {:induction false} NothingIncluded(sel: Selector, c: Cmn, l: seq<Xp>)
    requires forall i :: 0 <= i < |l| ==> l[i].node.XpNode?
    ensures PrunedXps(sel, c, l, false, false) == []
  {
    hide Match;
    if l != [] {
      NothingIncluded(sel, c, l[..|l| - 1]);
    }
  }

  // ---------------------------------------------------------------- pruning loses nothing

  /** A device node is where its port is: same coordinates, CPUs known to the system.  Its id may be any. */
  ghost predicate Attached(c: Cmn, xp: Xp, p: Port, n: Node) {
    && xp.node.XpNode? && n.DevNode?
    && n.cmnSeq == c.seqNo && n.x == xp.node.x && n.y == xp.node.y && n.port == p.number
    && n.kind != NODE_CFG && n.kind != NODE_XP
    && (n.onRnfPort <==> PROP_RNF <= p.props)
    && forall cpu :: cpu in n.cpus ==> cpu in c.cpuCmn && c.cpuCmn[cpu] == c.seqNo
  }

  ghost predicate XpOk(c: Cmn, xp: Xp) {
    xp.node.XpNode? && xp.node.cmnSeq == c.seqNo &&
    forall j, k :: 0 <= j < |xp.ports| && 0 <= k < |xp.ports[j].nodes| ==>
      Attached(c, xp, xp.ports[j], xp.ports[j].nodes[k])
  }

  ghost predicate WellFormed(c: Cmn) {
    forall i :: 0 <= i < |c.xps| ==> XpOk(c, c.xps[i])
  }

  /** No node has properties that its port's type does not announce. */
  ghost predicate PortCovers(p: Port) {
    forall k :: 0 <= k < |p.nodes| ==> p.nodes[k].props <= p.props
  }

  ghost predicate XpCovers(xp: Xp) {
    forall j :: 0 <= j < |xp.ports| ==> PortCovers(xp.ports[j])
  }

  ghost predicate Covered(c: Cmn) {
    forall i :: 0 <= i < |c.xps| ==> XpCovers(c.xps[i])
  }

  /** The id of a device node, but for its low bits, is its XP's; on CMN-600 it need not be. */
  ghost predicate IsOwnId(xp: Xp, n: Node) {
    xp.node.XpNode? && n.DevNode? && n.id - n.id % 8 == xp.node.id
  }

  ghost predicate PortIdsOwn(xp: Xp, p: Port) {
    forall k :: 0 <= k < |p.nodes| ==> IsOwnId(xp, p.nodes[k])
  }

  ghost predicate XpIdsOwn(xp: Xp) {
    forall j :: 0 <= j < |xp.ports| ==> PortIdsOwn(xp, xp.ports[j])
  }

  ghost predicate IdsOwn(c: Cmn) {
    forall i :: 0 <= i < |c.xps| ==> XpIdsOwn(c.xps[i])
  }

  lemma {:induction false} FilterNothing(sel: Selector, s: seq<Node>)
    requires forall k :: 0 <= k < |s| ==> !Match(sel, s[k])
    ensures Filter(sel, s) == []
  {
    if s != [] {
      FilterNothing(sel, s[..|s| - 1]);
    }
  }

  lemma DeviceMatchMeansPossible(sel: Selector, c: Cmn, xp: Xp, p: Port, n: Node)
    requires Attached(c, xp, p, n) && p in xp.ports && n.props <= p.props && IsOwnId(xp, n) && Match(sel, n)
    ensures CanMatchPort(sel, c, xp, p) && CanMatchXp(sel, c, xp) && CanMatchCmn(sel, c)
  {
    if sel != [] {
      var m :| m in sel && MatchSingle(m, n);
      assert SingleCanMatchPort(m, c, xp, p);
    }
  }

  lemma PrunedPortIsFilter(sel: Selector, c: Cmn, xp: Xp, p: Port)
    requires xp.node.XpNode? && p in xp.ports && PortCovers(p) && PortIdsOwn(xp, p)
    requires forall k :: 0 <= k < |p.nodes| ==> Attached(c, xp, p, p.nodes[k])
    ensures !CanMatchPort(sel, c, xp, p) || !CanMatchXp(sel, c, xp) || !CanMatchCmn(sel, c) ==> Filter(sel, p.nodes) == []
  {
    hide Attached, IsOwnId, Match, CanMatchPort, CanMatchXp, CanMatchCmn;
    if !CanMatchPort(sel, c, xp, p) || !CanMatchXp(sel, c, xp) || !CanMatchCmn(sel, c) {
      forall k | 0 <= k < |p.nodes|
        ensures !Match(sel, p.nodes[k])
      {
        if Match(sel, p.nodes[k]) {
          assert IsOwnId(xp, p.nodes[k]);
          DeviceMatchMeansPossible(sel, c, xp, p, p.nodes[k]);
        }
      }
      FilterNothing(sel, p.nodes);
    }
  }

  lemma {:induction false} PrunedPortsIsFilter(sel: Selector, c: Cmn, xp: Xp, ports: seq<Port>)
    requires xp.node.XpNode? && forall p :: p in ports ==> p in xp.ports && PortCovers(p) && PortIdsOwn(xp, p)
    requires forall j, k :: 0 <= j < |ports| && 0 <= k < |ports[j].nodes| ==> Attached(c, xp, ports[j], ports[j].nodes[k])
    ensures PrunedPorts(sel, c, xp, ports) == Filter(sel, PortNodes(ports))
    ensures !CanMatchXp(sel, c, xp) || !CanMatchCmn(sel, c) ==> Filter(sel, PortNodes(ports)) == []
  {
    hide Attached, CanMatchPort, CanMatchXp, CanMatchCmn, PortCovers, PortIdsOwn, Match;
    if ports != [] {
      var p := ports[|ports| - 1];
      PrunedPortsIsFilter(sel, c, xp, ports[..|ports| - 1]);
      PrunedPortIsFilter(sel, c, xp, p);
      FilterConcat(sel, PortNodes(ports[..|ports| - 1]), p.nodes);
    }
  }

  lemma XpMatchMeansPossible(sel: Selector, c: Cmn, n: Node)
    requires n.XpNode? && n.cmnSeq == c.seqNo && Match(sel, n)
    ensures CanMatchCmn(sel, c)
  {
    if sel != [] {
      var m :| m in sel && MatchSingle(m, n);
      assert SingleCanMatchCmn(m, c);
    }
  }

  lemma PrunedXpIsFilter(sel: Selector, c: Cmn, xp: Xp, xps: bool, devices: bool)
    requires XpOk(c, xp) && XpCovers(xp) && XpIdsOwn(xp)
    ensures PrunedXp(sel, c, xp, xps, devices) == Filter(sel, XpNodes(xp, xps, devices))
    ensures !CanMatchCmn(sel, c) ==> Filter(sel, XpNodes(xp, xps, devices)) == []
  {
    hide Attached, CanMatchXp, CanMatchCmn, PortCovers, PortIdsOwn, Match;
    PrunedPortsIsFilter(sel, c, xp, xp.ports);
    var head := if xps then [xp.node] else [];
    FilterConcat(sel, head, if devices then PortNodes(xp.ports) else []);
    if xps {
      assert [xp.node][..0] == [];
      if Match(sel, xp.node) {
        XpMatchMeansPossible(sel, c, xp.node);
      }
    }
  }

  lemma {:induction false} PrunedXpsIsFilter(sel: Selector, c: Cmn, l: seq<Xp>, xps: bool, devices: bool)
    requires forall i :: 0 <= i < |l| ==> l[i].node.XpNode?
    requires forall i :: 0 <= i < |l| ==> XpOk(c, l[i]) && XpCovers(l[i]) && XpIdsOwn(l[i])
    ensures PrunedXps(sel, c, l, xps, devices) == Filter(sel, MeshNodes(l, xps, devices))
    ensures !CanMatchCmn(sel, c) ==> Filter(sel, MeshNodes(l, xps, devices)) == []
  {
    hide Attached, XpCovers, XpIdsOwn, Match, PrunedXp, XpNodes, CanMatchCmn;
    if l != [] {
      var init, xp := l[..|l| - 1], l[|l| - 1];
      PrunedXpsIsFilter(sel, c, init, xps, devices);
      PrunedXpIsFilter(sel, c, xp, xps, devices);
      FilterConcat(sel, MeshNodes(init, xps, devices), XpNodes(xp, xps, devices));
    }
  }

  lemma CoveredIsLossless(sel: Selector, c: Cmn, root: bool, xps: bool, devices: bool)
    requires WellFormed(c) && Covered(c) && IdsOwn(c)
    ensures Pruned(sel, c, root, xps, devices) == Filter(sel, AllNodes(c, root, xps, devices))
  {
    hide XpCovers, XpIdsOwn, Match, PrunedXps, MeshNodes, CanMatchCmn;
    PrunedXpsIsFilter(sel, c, c.xps, xps, devices);
    var head := if root && c.root.Some? then [c.root.value] else [];
    FilterConcat(sel, head, MeshNodes(c.xps, xps, devices));
    if head != [] {
      assert head[..0] == [];
    }
  }

  // ---------------------------------------------------------------- and only with covering ports and own ids

  /** Pruning never yields more than filtering. */
  lemma {:induction false} PrunedPortsNotLonger(sel: Selector, c: Cmn, xp: Xp, ports: seq<Port>)
    requires xp.node.XpNode?
    ensures |PrunedPorts(sel, c, xp, ports)| <= |Filter(sel, PortNodes(ports))|
    ensures forall j :: 0 <= j < |ports| && !CanMatchPort(sel, c, xp, ports[j]) && Filter(sel, ports[j].nodes) != [] ==>
              |PrunedPorts(sel, c, xp, ports)| < |Filter(sel, PortNodes(ports))|
  {
    hide Match, CanMatchPort;
    if ports != [] {
      PrunedPortsNotLonger(sel, c, xp, ports[..|ports| - 1]);
      FilterConcat(sel, PortNodes(ports[..|ports| - 1]), ports[|ports| - 1].nodes);
    }
  }

  /** Some port of the XP is skipped although one of its nodes matches. */
  ghost predicate Loses(sel: Selector, c: Cmn, xp: Xp)
    requires xp.node.XpNode?
  {
    exists j :: 0 <= j < |xp.ports| && !CanMatchPort(sel, c, xp, xp.ports[j]) && Filter(sel, xp.ports[j].nodes) != []
  }

  lemma PrunedXpNotLonger(sel: Selector, c: Cmn, xp: Xp, xps: bool)
    requires xp.node.XpNode?
    ensures |PrunedXp(sel, c, xp, xps, true)| <= |Filter(sel, XpNodes(xp, xps, true))|
    ensures Loses(sel, c, xp) ==> |PrunedXp(sel, c, xp, xps, true)| < |Filter(sel, XpNodes(xp, xps, true))|
  {
    hide Match, CanMatchPort, CanMatchXp;
    PrunedPortsNotLonger(sel, c, xp, xp.ports);
    FilterConcat(sel, if xps then [xp.node] else [], PortNodes(xp.ports));
    assert [xp.node][..0] == [];
  }

  lemma {:induction false} PrunedXpsNotLonger(sel: Selector, c: Cmn, l: seq<Xp>, xps: bool)
    requires forall i :: 0 <= i < |l| ==> l[i].node.XpNode?
    ensures |PrunedXps(sel, c, l, xps, true)| <= |Filter(sel, MeshNodes(l, xps, true))|
    ensures forall i :: 0 <= i < |l| && Loses(sel, c, l[i]) ==>
              |PrunedXps(sel, c, l, xps, true)| < |Filter(sel, MeshNodes(l, xps, true))|
  {
    hide Match, Loses, PrunedXp, XpNodes;
    if l != [] {
      PrunedXpsNotLonger(sel, c, l[..|l| - 1], xps);
      PrunedXpNotLonger(sel, c, l[|l| - 1], xps);
      FilterConcat(sel, MeshNodes(l[..|l| - 1], xps, true), XpNodes(l[|l| - 1], xps, true));
    }
  }

  /** The selector that asks for all of a node's properties. */
  function ByProps(n: Node): Selector {
    [Single(None, None, None, None, None, None, None, None, None, Some(n.props))]
  }

  lemma UncoveredIsLost(c: Cmn, xp: Xp, j: int)
    requires XpOk(c, xp) && 0 <= j < |xp.ports| && !PortCovers(xp.ports[j])
    ensures exists sel :: Loses(sel, c, xp)
  {
    var p := xp.ports[j];
    var k :| 0 <= k < |p.nodes| && !(p.nodes[k].props <= p.props);
    var sel := ByProps(p.nodes[k]);
    assert Attached(c, xp, p, p.nodes[k]);
    assert sel[0] in sel && MatchSingle(sel[0], p.nodes[k]);
    MatchIsKept(sel, p.nodes, k);
    assert !CanMatchPort(sel, c, xp, p);
    assert Loses(sel, c, xp);
  }

  /** The selector that asks for a node's id. */
  function ById(id: nat): Selector {
    [Single(None, None, None, None, None, None, None, Some(id), None, None)]
  }

  lemma StrayIsLost(c: Cmn, xp: Xp, j: int)
    requires XpOk(c, xp) && 0 <= j < |xp.ports| && !PortIdsOwn(xp, xp.ports[j])
    ensures exists sel :: Loses(sel, c, xp)
  {
    var p := xp.ports[j];
    var k :| 0 <= k < |p.nodes| && !IsOwnId(xp, p.nodes[k]);
    assert Attached(c, xp, p, p.nodes[k]);
    var sel := ById(p.nodes[k].id);
    assert sel[0] in sel && MatchSingle(sel[0], p.nodes[k]);
    MatchIsKept(sel, p.nodes, k);
    assert !CanMatchPort(sel, c, xp, p);
    assert Loses(sel, c, xp);
  }

  lemma {:induction false} MatchIsKept(sel: Selector, s: seq<Node>, k: int)
    requires 0 <= k < |s| && Match(sel, s[k])
    ensures Filter(sel, s) != []
  {
    hide Match;
    if k < |s| - 1 {
      MatchIsKept(sel, s[..|s| - 1], k);
    }
  }

  /** Whatever is selected, pruning yields what filtering does, in the same order. */
  ghost predicate Lossless(c: Cmn, root: bool, xps: bool)
    requires XpsAreXps(c)
  {
    forall sel: Selector :: Pruned(sel, c, root, xps, true) == Filter(sel, AllNodes(c, root, xps, true))
  }

  /**
   The traversal of device nodes is lossless for all selectors exactly when each port's properties
   cover those of its nodes, and each node's id is one of its XP's.  An MPAM node behind a
   home-node port is a node that they do not cover.
   */
  lemma LosslessIff(c: Cmn, root: bool, xps: bool)
    requires WellFormed(c) && XpsAreXps(c)
    ensures Lossless(c, root, xps) <==> Covered(c) && IdsOwn(c)
  {
    hide Pruned, AllNodes, PortCovers, PortIdsOwn, XpOk;
    if Covered(c) && IdsOwn(c) {
      forall sel: Selector
        ensures Pruned(sel, c, root, xps, true) == Filter(sel, AllNodes(c, root, xps, true))
      {
        CoveredIsLossless(sel, c, root, xps, true);
      }
    } else if !Covered(c) {
      var i :| 0 <= i < |c.xps| && !XpCovers(c.xps[i]);
      var j :| 0 <= j < |c.xps[i].ports| && !PortCovers(c.xps[i].ports[j]);
      assert XpOk(c, c.xps[i]);
      UncoveredIsLost(c, c.xps[i], j);
      var sel :| Loses(sel, c, c.xps[i]);
      LossShows(sel, c, i, root, xps);
    } else {
      var i :| 0 <= i < |c.xps| && !XpIdsOwn(c.xps[i]);
      var j :| 0 <= j < |c.xps[i].ports| && !PortIdsOwn(c.xps[i], c.xps[i].ports[j]);
      assert XpOk(c, c.xps[i]);
      StrayIsLost(c, c.xps[i], j);
      var sel :| Loses(sel, c, c.xps[i]);
      LossShows(sel, c, i, root, xps);
    }
  }

  lemma LossShows(sel: Selector, c: Cmn, i: int, root: bool, xps: bool)
    requires XpsAreXps(c) && 0 <= i < |c.xps| && Loses(sel, c, c.xps[i])
    ensures Pruned(sel, c, root, xps, true) != Filter(sel, AllNodes(c, root, xps, true))
  {
    hide Match, Loses, PrunedXps, MeshNodes, CanMatchCmn;
    PrunedXpsNotLonger(sel, c, c.xps, xps);
    var head := if root && c.root.Some? then [c.root.value] else [];
    FilterConcat(sel, head, MeshNodes(c.xps, xps, true));
    if head != [] {
      assert head[..0] == [];
    }
  }

  /** In any mesh, selecting by the MPAM property misses an MPAM node behind an HN-F port. */
  lemma MpamAtHomeNodeIsLost(c: Cmn, i: int, j: int, k: int, root: bool, xps: bool)
    requires WellFormed(c) && XpsAreXps(c)
    requires 0 <= i < |c.xps| && 0 <= j < |c.xps[i].ports| && 0 <= k < |c.xps[i].ports[j].nodes|
    requires c.xps[i].ports[j].props == PROP_HNF && c.xps[i].ports[j].nodes[k].props == PROP_MPAM
    ensures var sel := ByProps(c.xps[i].ports[j].nodes[k]);
            Pruned(sel, c, root, xps, true) != Filter(sel, AllNodes(c, root, xps, true))
  {
    var xp := c.xps[i];
    var n := xp.ports[j].nodes[k];
    var sel := ByProps(n);
    assert XpOk(c, xp) && Attached(c, xp, xp.ports[j], n);
    assert 9 in n.props && 9 !in xp.ports[j].props;
    assert sel[0] in sel && MatchSingle(sel[0], n);
    MatchIsKept(sel, xp.ports[j].nodes, k);
    assert !CanMatchPort(sel, c, xp, xp.ports[j]);
    assert Loses(sel, c, xp);
    hide Pruned, AllNodes, WellFormed;
    LossShows(sel, c, i, root, xps);
  }

  lemma OneXp(xp: Xp)
    requires |xp.ports| == 1
    ensures MeshNodes([xp], true, true) == [xp.node] + xp.ports[0].nodes
  {
    var l, ports := [xp], xp.ports;
    assert l[..|l| - 1] == [] && l[|l| - 1] == xp;
    assert ports[..|ports| - 1] == [];
    assert PortNodes(ports) == PortNodes([]) + ports[0].nodes;
    assert MeshNodes(l, true, true) == MeshNodes([], true, true) + XpNodes(xp, true, true);
  }

  lemma OneXpPruned(sel: Selector, c: Cmn, xp: Xp)
    requires xp.node.XpNode? && |xp.ports| == 1 && !Match(sel, xp.node) && !CanMatchPort(sel, c, xp, xp.ports[0])
    ensures PrunedXps(sel, c, [xp], true, true) == []
  {
    hide Match, CanMatchPort, CanMatchXp;
    var l, ports := [xp], xp.ports;
    assert l[..|l| - 1] == [] && l[|l| - 1] == xp;
    assert ports[..|ports| - 1] == [];
    assert PrunedPorts(sel, c, xp, ports) == PrunedPorts(sel, c, xp, []);
    assert PrunedXps(sel, c, l, true, true) == PrunedXps(sel, c, [], true, true) + PrunedXp(sel, c, xp, true, true);
  }

  lemma FilterLast(sel: Selector, s: seq<Node>, n: Node)
    ensures Filter(sel, s + [n]) == Filter(sel, s) + if Match(sel, n) then [n] else []
  {
    hide Match;
    assert (s + [n])[..|s + [n]| - 1] == s;
  }

  lemma FilterThird(sel: Selector, a: Node, b: Node, c: Node)
    requires !Match(sel, a) && !Match(sel, b) && Match(sel, c)
    ensures Filter(sel, [a, b, c]) == [c]
  {
    assert Filter(sel, []) == [];
    hide Match, Filter;
    FilterLast(sel, [], a);
    FilterLast(sel, [a], b);
    FilterLast(sel, [a, b], c);
    assert [] + [a] == [a];
    assert [a] + [b] == [a, b];
    assert [a, b] + [c] == [a, b, c];
  }

  /** A mesh of one XP that has one port with two nodes. */
  function Small(node: Node, props: Props, a: Node, b: Node): Cmn {
    Cmn(0, None, [Xp(node, [Port(0, props, [a, b])])], map[])
  }

  lemma SmallLoses(sel: Selector, node: Node, props: Props, a: Node, b: Node)
    requires node.XpNode? && !Match(sel, node) && !Match(sel, a) && Match(sel, b)
    requires var c := Small(node, props, a, b); !CanMatchPort(sel, c, c.xps[0], c.xps[0].ports[0])
    ensures Filter(sel, AllNodes(Small(node, props, a, b), true, true, true)) == [b]
    ensures Pruned(sel, Small(node, props, a, b), true, true, true) == []
  {
    var c := Small(node, props, a, b);
    hide Match, CanMatchPort, MeshNodes, PrunedXps, CanMatchCmn, Filter;
    var xp := c.xps[0];
    assert c.xps == [xp];
    OneXp(xp);
    OneXpPruned(sel, c, xp);
    FilterThird(sel, node, a, b);
    assert AllNodes(c, true, true, true) == [node, a, b];
  }

  const NODE_HNF := 5
  const NODE_MPAM_S := 8
  const XP_NODE := XpNode(0, 0, 0, 0, Some(0), {25, 27})
  const HNF_NODE := DevNode(0, 0, 0, 0, 0, NODE_HNF, 0, Some(0), PROP_HNF, {}, false)
  const MPAM_NODE := DevNode(0, 0, 0, 0, 0, NODE_MPAM_S, 0, Some(0), PROP_MPAM, {}, false)
  const STRAY_NODE := DevNode(0, 0, 0, 0, 1, NODE_HNF, 9, Some(1), PROP_HNF, {}, false)

  const HOME_MESH := Small(XP_NODE, PROP_HNF, HNF_NODE, MPAM_NODE)
  const STRAY_MESH := Small(XP_NODE, PROP_HNF, HNF_NODE, STRAY_NODE)

  /** Such a mesh: a home node with its MPAM node. */
  lemma HomeMeshLosesMpam()
    ensures WellFormed(HOME_MESH) && !Covered(HOME_MESH) && IdsOwn(HOME_MESH)
    ensures Filter(ByProps(MPAM_NODE), AllNodes(HOME_MESH, true, true, true)) == [MPAM_NODE]
    ensures Pruned(ByProps(MPAM_NODE), HOME_MESH, true, true, true) == []
  {
    MpamMatches();
    HomeMeshIs();
    hide Match, CanMatchPort, ByProps, WellFormed, Covered, IdsOwn, AllNodes, Pruned, Filter;
    SmallLoses(ByProps(MPAM_NODE), XP_NODE, PROP_HNF, HNF_NODE, MPAM_NODE);
  }

  lemma HomeMeshIs()
    ensures WellFormed(HOME_MESH) && !Covered(HOME_MESH) && IdsOwn(HOME_MESH)
  {
    var p := HOME_MESH.xps[0].ports[0];
    assert 9 in MPAM_NODE.props && 9 !in p.props;
    assert p.nodes[1] == MPAM_NODE;
    assert !PortCovers(p);
    assert !XpCovers(HOME_MESH.xps[0]);
  }

  lemma MpamMatches()
    ensures var sel := ByProps(MPAM_NODE);
            && !Match(sel, XP_NODE) && !Match(sel, HNF_NODE) && Match(sel, MPAM_NODE)
            && !CanMatchPort(sel, HOME_MESH, HOME_MESH.xps[0], HOME_MESH.xps[0].ports[0])
  {
    var sel := ByProps(MPAM_NODE);
    assert 9 in PROP_MPAM && 9 !in XP_NODE.props && 9 !in PROP_HNF;
    assert sel[0] in sel && MatchSingle(sel[0], MPAM_NODE);
  }

  /** A mesh, as CMN-600 allows it, with a node that has another XP's id: ports cover their nodes, and asking for its id misses it. */
  lemma StrayMeshLosesNode()
    ensures WellFormed(STRAY_MESH) && Covered(STRAY_MESH) && !IdsOwn(STRAY_MESH)
    ensures Filter(ById(9), AllNodes(STRAY_MESH, true, true, true)) == [STRAY_NODE]
    ensures Pruned(ById(9), STRAY_MESH, true, true, true) == []
  {
    StrayMatches();
    StrayMeshIs();
    hide Match, CanMatchPort, ById, WellFormed, Covered, IdsOwn, AllNodes, Pruned, Filter;
    SmallLoses(ById(9), XP_NODE, PROP_HNF, HNF_NODE, STRAY_NODE);
  }

  lemma StrayMeshIs()
    ensures WellFormed(STRAY_MESH) && Covered(STRAY_MESH) && !IdsOwn(STRAY_MESH)
  {
    var xp := STRAY_MESH.xps[0];
    assert xp.ports[0].nodes[1] == STRAY_NODE;
    assert !PortIdsOwn(xp, xp.ports[0]);
    assert !XpIdsOwn(xp);
  }

  lemma StrayMatches()
    ensures var sel := ById(9);
            && !Match(sel, XP_NODE) && !Match(sel, HNF_NODE) && Match(sel, STRAY_NODE)
            && !CanMatchPort(sel, STRAY_MESH, STRAY_MESH.xps[0], STRAY_MESH.xps[0].ports[0])
  {
    var sel := ById(9);
    assert sel[0] in sel && MatchSingle(sel[0], STRAY_NODE);
  }

  // ---------------------------------------------------------------- groups by node type

  function OfType(s: seq<Node>, t: nat): seq<Node> {
    if s == [] then []
    else OfType(s[..|s| - 1], t) + (if s[|s| - 1].Type() == t then [s[|s| - 1]] else [])
  }

  function TypesOf(s: seq<Node>): set<nat> {
    set n | n in s :: n.Type()
  }

  /** Collect nodes by type, each group in the order of the traversal. */
  method GroupByType(s: seq<Node>) returns (groups: map<nat, seq<Node>>)
    ensures groups.Keys == TypesOf(s)
    ensures forall t :: t in groups ==> groups[t] == OfType(s, t)
  {
    groups := map[];
    for i := 0 to |s|
      invariant groups.Keys == TypesOf(s[..i])
      invariant forall t :: t in groups ==> groups[t] == OfType(s[..i], t)
    {
      var nt := s[i].Type();
      assert s[..i + 1] == s[..i] + [s[i]];
      if nt !in groups {
        NoneOfType(s[..i], nt);
        groups := groups[nt := []];
      }
      groups := groups[nt := groups[nt] + [s[i]]];
    }
    assert s[..|s|] == s;
  }

  lemma {:induction false} NoneOfType(s: seq<Node>, t: nat)
    requires t !in TypesOf(s)
    ensures OfType(s, t) == []
  {
    if s != [] {
      assert s[|s| - 1] in s;
      assert TypesOf(s[..|s| - 1]) <= TypesOf(s);
      NoneOfType(s[..|s| - 1], t);
    }
  }

  /** The node types that have names of their own. */
  const NAMED_TYPES: set<nat> := {0, 1, 2, 3, 4, 5, 6, 7, 8, 9, 10, 13, 15, 16, 17, 256, 257, 258,
                                  0x103, 0x104, 0x105, 0x106, 0x200, 0x201, 0x202, 0x1000}

  ghost function Smallest(s: set<nat>): (m: nat)
    requires s != {}
    ensures m in s && forall x :: x in s ==> m <= x
  {
    var x :| x in s;
    assert forall y :: y in s ==> y == x || y in s - {x};
    if s - {x} == {} then x
    else
      var m := Smallest(s - {x});
      if x < m then x else m
  }

  ghost function Ascending(s: set<nat>): (l: seq<nat>)
    ensures forall x :: x in l <==> x in s
    ensures forall i, j :: 0 <= i < j < |l| ==> l[i] < l[j]
  {
    if s == {} then [] else [Smallest(s)] + Ascending(s - {Smallest(s)})
  }

  /** The root's type, the XP type, then named types and unnamed types, each by number. */
  ghost function TypeOrder(types: set<nat>): seq<nat> {
    var others := types - {NODE_CFG, NODE_XP};
    RootThenXp(types) + Ascending(others * NAMED_TYPES) + Ascending(others - NAMED_TYPES)
  }

  function RootThenXp(types: set<nat>): seq<nat> {
    (if NODE_CFG in types then [NODE_CFG] else []) + (if NODE_XP in types then [NODE_XP] else [])
  }

  ghost function Flatten(s: seq<Node>, order: seq<nat>): seq<Node> {
    if order == [] then [] else OfType(s, order[0]) + Flatten(s, order[1..])
  }

  ghost predicate NoRepeats(order: seq<nat>) {
    forall i, j :: 0 <= i < j < |order| ==> order[i] != order[j]
  }

  lemma {:induction false} FlattenMore(s: seq<Node>, order: seq<nat>)
    requires s != [] && NoRepeats(order)
    ensures var n := s[|s| - 1];
            multiset(Flatten(s, order))
            == multiset(Flatten(s[..|s| - 1], order)) + (if n.Type() in order then multiset{n} else multiset{})
  {
    if order != [] {
      FlattenMore(s, order[1..]);
      assert order == [order[0]] + order[1..];
    }
  }

  /** Going through the groups visits every node as often as the traversal did. */
  lemma {:induction false} GroupsArePermutation(s: seq<Node>, order: seq<nat>)
    requires NoRepeats(order) && forall n :: n in s ==> n.Type() in order
    ensures multiset(Flatten(s, order)) == multiset(s)
  {
    if s == [] {
      FlattenNothing(order);
    } else {
      hide *;
      var init, n := s[..|s| - 1], s[|s| - 1];
      assert n in s && forall m :: m in init ==> m in s;
      assert s == init + [n];
      GroupsArePermutation(init, order);
      FlattenMore(s, order);
    }
  }

  lemma {:induction false} FlattenNothing(order: seq<nat>)
    ensures Flatten([], order) == []
  {
    if order != [] {
      FlattenNothing(order[1..]);
    }
  }

  lemma NoRepeatsConcat(a: seq<nat>, b: seq<nat>)
    requires NoRepeats(a) && NoRepeats(b) && forall x :: !(x in a && x in b)
    ensures NoRepeats(a + b)
  {
    forall i, j | 0 <= i < j < |a + b|
      ensures (a + b)[i] != (a + b)[j]
    {
      assert i < |a| ==> (a + b)[i] in a;
      assert j >= |a| ==> (a + b)[j] in b;
    }
  }

  /** The order has each type once. */
  lemma OrderHasNoRepeats(types: set<nat>)
    ensures NoRepeats(TypeOrder(types)) && forall t :: t in types <==> t in TypeOrder(types)
  {
    var others := types - {NODE_CFG, NODE_XP};
    var named, unnamed := Ascending(others * NAMED_TYPES), Ascending(others - NAMED_TYPES);
    assert NoRepeats(named) && NoRepeats(unnamed);
    hide Ascending, NoRepeats, NAMED_TYPES;
    assert NoRepeats(RootThenXp(types)) by {
      RootThenXpOnce(types);
    }
    NoRepeatsConcat(RootThenXp(types), named);
    NoRepeatsConcat(RootThenXp(types) + named, unnamed);
  }

  /** Root, XPs, types with names, types without. */
  function Rank(t: nat): nat {
    if t == NODE_CFG then 0 else if t == NODE_XP then 1 else if t in NAMED_TYPES then 2 else 3
  }

  /** The order goes by rank, and within a rank by number. */
  lemma OrderIsByRank(types: set<nat>, i: int, j: int)
    requires 0 <= i < j < |TypeOrder(types)|
    ensures RankedBefore(TypeOrder(types)[i], TypeOrder(types)[j])
  {
    hide NAMED_TYPES, Ascending, RankedBefore;
    var others := types - {NODE_CFG, NODE_XP};
    var first, named, unnamed := RootThenXp(types), Ascending(others * NAMED_TYPES), Ascending(others - NAMED_TYPES);
    OneRank(others * NAMED_TYPES, 2);
    OneRank(others - NAMED_TYPES, 3);
    RootThenXpRanked(types);
    LowerRankFirst(first, named, 2);
    RankedConcat(first, named);
    LowerRankFirst(first + named, unnamed, 3);
    RankedConcat(first + named, unnamed);
  }

  lemma OneRank(s: set<nat>, rank: nat)
    requires forall t :: t in s ==> Rank(t) == rank
    ensures forall i, j :: 0 <= i < j < |Ascending(s)| ==> RankedBefore(Ascending(s)[i], Ascending(s)[j])
    ensures forall t :: t in Ascending(s) ==> Rank(t) == rank
  {
    hide NAMED_TYPES, Rank;
    assert forall i :: 0 <= i < |Ascending(s)| ==> Ascending(s)[i] in Ascending(s);
  }

  lemma RootThenXpRanked(types: set<nat>)
    ensures forall i, j :: 0 <= i < j < |RootThenXp(types)| ==> RankedBefore(RootThenXp(types)[i], RootThenXp(types)[j])
    ensures forall t :: t in RootThenXp(types) ==> Rank(t) < 2
  {
    hide NAMED_TYPES;
  }

  lemma LowerRankFirst(a: seq<nat>, b: seq<nat>, rank: nat)
    requires (forall t :: t in a ==> Rank(t) < rank) && forall t :: t in b ==> Rank(t) == rank
    ensures forall x, y :: x in a && y in b ==> RankedBefore(x, y)
  {
    hide Rank;
  }

  predicate RankedBefore(a: nat, b: nat) {
    Rank(a) < Rank(b) || (Rank(a) == Rank(b) && a < b)
  }

  lemma RankedConcat(a: seq<nat>, b: seq<nat>)
    requires forall i, j :: 0 <= i < j < |a| ==> RankedBefore(a[i], a[j])
    requires forall i, j :: 0 <= i < j < |b| ==> RankedBefore(b[i], b[j])
    requires forall x, y :: x in a && y in b ==> RankedBefore(x, y)
    ensures forall i, j :: 0 <= i < j < |a + b| ==> RankedBefore((a + b)[i], (a + b)[j])
  {
    hide RankedBefore;
    forall i, j | 0 <= i < j < |a + b|
      ensures RankedBefore((a + b)[i], (a + b)[j])
    {
      assert i < |a| ==> (a + b)[i] in a;
      assert j >= |a| ==> (a + b)[j] in b;
    }
  }

  lemma RootThenXpOnce(types: set<nat>)
    ensures NoRepeats(RootThenXp(types))
  {
  }

  /** The grouped traversal is a permutation of the traversal that keeps the order within each type. */
  lemma GroupedTraversalIsStable(s: seq<Node>, t: nat)
    ensures var grouped := Flatten(s, TypeOrder(TypesOf(s)));
            multiset(grouped) == multiset(s) && OfType(grouped, t) == OfType(s, t)
  {
    var order := TypeOrder(TypesOf(s));
    OrderHasNoRepeats(TypesOf(s));
    hide TypeOrder, Flatten, NoRepeats, OfType;
    forall n | n in s
      ensures n.Type() in order
    {
      assert n.Type() in TypesOf(s);
    }
    GroupsArePermutation(s, order);
    OfTypeOfFlatten(s, order, t);
    if t !in TypesOf(s) {
      NoneOfType(s, t);
    }
  }

  lemma {:induction false} OfTypeOfFlatten(s: seq<Node>, order: seq<nat>, t: nat)
    requires NoRepeats(order)
    ensures OfType(Flatten(s, order), t) == if t in order then OfType(s, t) else []
  {
    if order != [] {
      assert order == [order[0]] + order[1..];
      OfTypeConcat(OfType(s, order[0]), Flatten(s, order[1..]), t);
      OfTypeTwice(s, order[0], t);
      OfTypeOfFlatten(s, order[1..], t);
    }
  }

  lemma {:induction false} OfTypeConcat(s: seq<Node>, r: seq<Node>, t: nat)
    ensures OfType(s + r, t) == OfType(s, t) + OfType(r, t)
  {
    if r == [] {
      assert s + r == s;
    } else {
      OfTypeConcat(s, r[..|r| - 1], t);
      assert (s + r)[..|s + r| - 1] == s + r[..|r| - 1];
    }
  }

  lemma {:induction false} OfTypeTwice(s: seq<Node>, u: nat, t: nat)
    ensures OfType(OfType(s, u), t) == if u == t then OfType(s, t) else []
  {
    if s != [] {
      var n := s[|s| - 1];
      OfTypeTwice(s[..|s| - 1], u, t);
      OfTypeConcat(OfType(s[..|s| - 1], u), if n.Type() == u then [n] else [], t);
      assert [n][..0] == [];
    }
  }
}
