/**
 Routes through a rectangular mesh of crosspoints (XPs): X first, then Y.

 `Route` is the object the tools build for a pair of nodes.  Its loop is proved
 against a description of the route that never mentions the loop: the i-th XP of
 the route is given by `Point`, and a link's slices belong to the link, not to the
 direction in which it is crossed.
 */
module Routing {
  import opened Options

  datatype Coord = Coord(x: int, y: int)

  /** What routing reads from an XP: the credited slices of its east and north links, if recorded. */
  datatype Xp = Xp(mcsEast: Option<nat>, mcsNorth: Option<nat>)

  datatype Mesh = Mesh(cmnSeq: nat, dimX: nat, dimY: nat, xps: map<Coord, Xp>) {
    predicate Contains(c: Coord) {
      0 <= c.x < dimX && 0 <= c.y < dimY
    }

    /** A rectangular mesh: an XP at each coordinate and nowhere else. */
    ghost predicate Rectangular() {
      forall c :: c in xps <==> Contains(c)
    }
  }

  /** A route's end: an XP, or a device slot behind a port of an XP. */
  datatype Node =
    | XpNode(cmnSeq: nat, at: Coord)
    | DevNode(cmnSeq: nat, at: Coord, id: nat, dcs: Option<nat>, cal: Option<nat>)

  datatype Stop = AtXp(c: Coord) | AtDevice(id: nat)

  datatype Link = Link(src: Stop, dst: Stop)

  datatype Hop = Hop(link: Link, baseCost: nat, mcs: nat, deviceSlices: nat, calSlices: nat) {
    function Cost(): nat {
      baseCost + mcs + deviceSlices + calSlices
    }
  }

  function OrZero(n: Option<nat>): nat {
    if n.Some? then n.value else 0
  }

  // ---------------------------------------------------------------- one step of the router

  /** The next XP on the way to `to`, and the slices recorded for the link to it. */
  function NextXpAndMcs(m: Mesh, c: Coord, to: Coord): (Coord, Option<nat>)
    requires m.Rectangular() && m.Contains(c) && m.Contains(to)
  {
    if c.x < to.x then
      (Coord(c.x + 1, c.y), m.xps[c].mcsEast)
    else if c.x > to.x then
      var next := Coord(c.x - 1, c.y);
      (next, m.xps[next].mcsEast)
    else if c.y < to.y then
      (Coord(c.x, c.y + 1), m.xps[c].mcsNorth)
    else if c.y > to.y then
      var next := Coord(c.x, c.y - 1);
      (next, m.xps[next].mcsNorth)
    else
      (c, Some(0))
  }

  function NodeLocalCosts(n: Node): (nat, nat) {
    match n
    case XpNode(_, _) => (0, 0)
    case DevNode(_, _, _, dcs, cal) => (OrZero(dcs), OrZero(cal))
  }

  // ---------------------------------------------------------------- what a route is

  function Abs(n: int): nat {
    if n < 0 then -n else n
  }

  function Distance(a: Coord, b: Coord): nat {
    Abs(a.x - b.x) + Abs(a.y - b.y)
  }

  function Toward(p: int, q: int, i: nat): int {
    if p <= q then p + i else p - i
  }

  /** The i-th XP of the XY route from a to b. */
  function Point(a: Coord, b: Coord, i: nat): Coord {
    var dx := Abs(a.x - b.x);
    if i <= dx then Coord(Toward(a.x, b.x, i), a.y) else Coord(b.x, Toward(a.y, b.y, i - dx))
  }

  predicate Adjacent(c: Coord, d: Coord) {
    Distance(c, d) == 1
  }

  function East(m: Mesh, c: Coord): nat {
    if c in m.xps then OrZero(m.xps[c].mcsEast) else 0
  }

  function North(m: Mesh, c: Coord): nat {
    if c in m.xps then OrZero(m.xps[c].mcsNorth) else 0
  }

  /** Slices of the link between two neighbours, recorded at its western or southern end. */
  function LinkSlices(m: Mesh, c: Coord, d: Coord): nat {
    if c.x < d.x then East(m, c)
    else if d.x < c.x then East(m, d)
    else if c.y < d.y then North(m, c)
    else North(m, d)
  }

  function MeshHop(m: Mesh, c: Coord, d: Coord): Hop {
    Hop(Link(AtXp(c), AtXp(d)), 1, LinkSlices(m, c, d), 0, 0)
  }

  lemma PointInMesh(m: Mesh, a: Coord, b: Coord, i: nat)
    requires m.Contains(a) && m.Contains(b) && i <= Distance(a, b)
    ensures m.Contains(Point(a, b, i))
  {
  }

  /** The first n mesh hops of the route from a to b. */
  ghost function MeshHops(m: Mesh, a: Coord, b: Coord, n: nat): seq<Hop> {
    seq(n, i requires 0 <= i => MeshHop(m, Point(a, b, i), Point(a, b, i + 1)))
  }

  function FromHop(n: Node): seq<Hop> {
    match n
    case XpNode(_, _) => []
    case DevNode(_, at, id, dcs, cal) =>
      [Hop(Link(AtDevice(id), AtXp(at)), 0, 0, OrZero(dcs), OrZero(cal))]
  }

  function ToHop(n: Node): seq<Hop> {
    match n
    case XpNode(_, _) => []
    case DevNode(_, at, id, dcs, cal) =>
      [Hop(Link(AtXp(at), AtDevice(id)), 0, 0, OrZero(dcs), OrZero(cal))]
  }

  predicate OnMesh(m: Mesh, n: Node) {
    n.cmnSeq == m.cmnSeq && m.Contains(n.at)
  }

  ghost function RouteHops(m: Mesh, from: Node, to: Node): seq<Hop>
  {
    FromHop(from) + MeshHops(m, from.at, to.at, Distance(from.at, to.at)) + ToHop(to)
  }

  function SumCost(hops: seq<Hop>): nat {
    if hops == [] then 0 else SumCost(hops[..|hops| - 1]) + hops[|hops| - 1].Cost()
  }

  function SumMcs(hops: seq<Hop>): nat {
    if hops == [] then 0 else SumMcs(hops[..|hops| - 1]) + hops[|hops| - 1].mcs
  }

  /** The router's step goes from the i-th XP of the route to the (i+1)-th. */
  lemma StepFollowsRoute(m: Mesh, a: Coord, b: Coord, i: nat)
    requires m.Rectangular() && m.Contains(a) && m.Contains(b) && i < Distance(a, b)
    ensures m.Contains(Point(a, b, i)) && m.Contains(Point(a, b, i + 1))
    ensures Adjacent(Point(a, b, i), Point(a, b, i + 1))
    ensures var (next, mcs) := NextXpAndMcs(m, Point(a, b, i), b);
            next == Point(a, b, i + 1) && OrZero(mcs) == LinkSlices(m, Point(a, b, i), next)
  {
    PointInMesh(m, a, b, i);
    PointInMesh(m, a, b, i + 1);
  }

  lemma OnlyLastPointIsEnd(a: Coord, b: Coord, i: nat)
    requires i <= Distance(a, b) && Point(a, b, i) == b
    ensures i == Distance(a, b)
  {
  }

  lemma LocalCosts(n: Node)
    ensures SumCost(FromHop(n)) == SumCost(ToHop(n)) == NodeLocalCosts(n).0 + NodeLocalCosts(n).1
  {
    if n.DevNode? {
      assert FromHop(n)[..0] == [] && ToHop(n)[..0] == [];
    }
  }

  /** Adding the hop that the router takes from the i-th XP gives the first i+1 hops of the route. */
  lemma StepExtendsRoute(m: Mesh, a: Coord, b: Coord, i: nat)
    requires m.Rectangular() && m.Contains(a) && m.Contains(b) && i < Distance(a, b)
    ensures m.Contains(Point(a, b, i))
    ensures var (next, mcs) := NextXpAndMcs(m, Point(a, b, i), b);
            && next == Point(a, b, i + 1)
            && var hop := Hop(Link(AtXp(Point(a, b, i)), AtXp(next)), 1, OrZero(mcs), 0, 0);
               MeshHops(m, a, b, i) + [hop] == MeshHops(m, a, b, i + 1)
  {
    StepFollowsRoute(m, a, b, i);
  }

  lemma {:induction false} SumMcsAppend(hops: seq<Hop>, h: Hop)
    ensures SumMcs(hops + [h]) == SumMcs(hops) + h.mcs
  {
    assert (hops + [h])[..|hops|] == hops;
  }

  lemma {:induction false} SumCostConcat(g: seq<Hop>, h: seq<Hop>)
    ensures SumCost(g + h) == SumCost(g) + SumCost(h)
  {
    if h == [] {
      assert g + h == g;
    } else {
      SumCostConcat(g, h[..|h| - 1]);
      assert (g + h)[..|g + h| - 1] == g + h[..|h| - 1];
    }
  }

  class Route {
    const mesh: Mesh
    const nodeFrom: Node
    const nodeTo: Node
    var hops: seq<Hop>
    var meshHops: seq<Hop>
    var nHops: nat
    var nMcs: nat
    var nFromSlices: nat
    var nToSlices: nat

    constructor (mesh: Mesh, nodeFrom: Node, nodeTo: Node)
      ensures this.mesh == mesh && this.nodeFrom == nodeFrom && this.nodeTo == nodeTo
      ensures hops == [] && meshHops == []
    {
      this.mesh, this.nodeFrom, this.nodeTo := mesh, nodeFrom, nodeTo;
      hops, meshHops, nHops, nMcs, nFromSlices, nToSlices := [], [], 0, 0, 0, 0;
    }

    /** The mesh given to a route is the one its source node belongs to. */
    ghost predicate Placed() {
      mesh.Rectangular() && OnMesh(mesh, nodeFrom) &&
      (nodeTo.cmnSeq == nodeFrom.cmnSeq ==> OnMesh(mesh, nodeTo))
    }

    ghost predicate Found()
      reads this
    {
      Placed() && OnMesh(mesh, nodeTo) &&
      hops == RouteHops(mesh, nodeFrom, nodeTo) &&
      meshHops == MeshHops(mesh, nodeFrom.at, nodeTo.at, Distance(nodeFrom.at, nodeTo.at)) &&
      nHops == |meshHops| &&
      nMcs == SumMcs(meshHops) &&
      nFromSlices == SumCost(FromHop(nodeFrom)) &&
      nToSlices == SumCost(ToHop(nodeTo))
    }

    /** After i steps of the walk. */
    ghost predicate Walked(i: nat)
      reads this
    {
      meshHops == MeshHops(mesh, nodeFrom.at, nodeTo.at, i) &&
      hops == FromHop(nodeFrom) + meshHops &&
      nMcs == SumMcs(meshHops)
    }

    method AddHop(xp: Coord, ghost i: nat) returns (next: Coord)
      requires Placed() && OnMesh(mesh, nodeTo)
      requires i < Distance(nodeFrom.at, nodeTo.at)
      requires Walked(i) && xp == Point(nodeFrom.at, nodeTo.at, i)
      modifies this`hops, this`meshHops, this`nMcs
      ensures Walked(i + 1) && next == Point(nodeFrom.at, nodeTo.at, i + 1)
    {
      hide Point, NextXpAndMcs, SumMcs, MeshHops;
      StepExtendsRoute(mesh, nodeFrom.at, nodeTo.at, i);
      var (xpNext, mcs) := NextXpAndMcs(mesh, xp, nodeTo.at);
      var hop := Hop(Link(AtXp(xp), AtXp(xpNext)), 1, OrZero(mcs), 0, 0);
      SumMcsAppend(meshHops, hop);
      meshHops := meshHops + [hop];
      hops := hops + [hop];
      nMcs := nMcs + hop.mcs;
      next := xpNext;
    }

    /** The loop of the search: from XP to XP until the destination's XP is reached. */
    method WalkMesh()
      requires Placed() && OnMesh(mesh, nodeTo)
      requires hops == FromHop(nodeFrom) && meshHops == []
      modifies this`hops, this`meshHops, this`nMcs
      ensures Walked(Distance(nodeFrom.at, nodeTo.at))
    {
      var xp, xpTo := nodeFrom.at, nodeTo.at;
      nMcs := 0;
      ghost var i := 0;
      while xp != xpTo
        invariant 0 <= i <= Distance(nodeFrom.at, xpTo)
        invariant xp == Point(nodeFrom.at, xpTo, i)
        invariant Walked(i)
        decreases Distance(nodeFrom.at, xpTo) - i
      {
        xp := AddHop(xp, i);
        i := i + 1;
      }
      OnlyLastPointIsEnd(nodeFrom.at, xpTo, i);
    }

    /** False, with nothing changed, is the RouteCrossMesh exception. */
    method FindRoute() returns (ok: bool)
      requires Placed()
      modifies this
      ensures ok <==> nodeFrom.cmnSeq == nodeTo.cmnSeq
      ensures ok ==> Found()
      ensures !ok ==> unchanged(this)
    {
      if nodeFrom.cmnSeq != nodeTo.cmnSeq {
        return false;
      }
      hops, meshHops := [], [];
      var (fromDcs, fromCal) := NodeLocalCosts(nodeFrom);
      nFromSlices := fromDcs + fromCal;
      LocalCosts(nodeFrom);
      var xpFrom, xpTo := nodeFrom.at, nodeTo.at;
      if !nodeFrom.XpNode? {
        hops := hops + [Hop(Link(AtDevice(nodeFrom.id), AtXp(xpFrom)), 0, 0, fromDcs, fromCal)];
      }
      WalkMesh();
      LocalCosts(nodeTo);
      nHops := |meshHops|;
      var (toDcs, toCal) := NodeLocalCosts(nodeTo);
      nToSlices := toDcs + toCal;
      if !nodeTo.XpNode? {
        hops := hops + [Hop(Link(AtXp(xpTo), AtDevice(nodeTo.id)), 0, 0, toDcs, toCal)];
      }
      return true;
    }

    /** The cost reported for a route is the sum of the costs of its hops. */
    function Cost(): (cost: nat)
      requires Found()
      reads this
      ensures cost == SumCost(hops) == RouteCost(mesh, nodeFrom, nodeTo)
    {
      RouteCostIsSumOfHops(mesh, nodeFrom, nodeTo);
      var d := Distance(nodeFrom.at, nodeTo.at);
      MeshHopsCost(mesh, nodeFrom.at, nodeTo.at, d);
      SumCostConcat(FromHop(nodeFrom), meshHops);
      SumCostConcat(FromHop(nodeFrom) + meshHops, ToHop(nodeTo));
      nHops + nMcs + (nFromSlices + nToSlices)
    }
  }

  lemma {:induction false} MeshHopsCost(m: Mesh, a: Coord, b: Coord, n: nat)
    ensures SumCost(MeshHops(m, a, b, n)) == n + SumMcs(MeshHops(m, a, b, n))
  {
    if n > 0 {
      MeshHopsCost(m, a, b, n - 1);
      assert MeshHops(m, a, b, n)[..n - 1] == MeshHops(m, a, b, n - 1);
    }
  }

  // ---------------------------------------------------------------- shortest paths

  ghost predicate IsPath(p: seq<Coord>, a: Coord, b: Coord) {
    |p| > 0 && p[0] == a && p[|p| - 1] == b &&
    forall i :: 0 <= i < |p| - 1 ==> Adjacent(p[i], p[i + 1])
  }

  /** The XPs visited by the mesh hops of the route: a connected path that stays in the mesh. */
  ghost function RouteXps(a: Coord, b: Coord): (p: seq<Coord>)
    ensures |p| == Distance(a, b) + 1
  {
    seq(Distance(a, b) + 1, i requires 0 <= i => Point(a, b, i))
  }

  lemma RouteIsPathInMesh(m: Mesh, a: Coord, b: Coord)
    requires m.Rectangular() && m.Contains(a) && m.Contains(b)
    ensures IsPath(RouteXps(a, b), a, b)
    ensures forall c :: c in RouteXps(a, b) ==> m.Contains(c)
    ensures var hops := MeshHops(m, a, b, Distance(a, b));
            forall i :: 0 <= i < |hops| ==>
              hops[i].link == Link(AtXp(RouteXps(a, b)[i]), AtXp(RouteXps(a, b)[i + 1]))
  {
    forall i | 0 <= i < Distance(a, b)
      ensures Adjacent(RouteXps(a, b)[i], RouteXps(a, b)[i + 1])
    {
      StepFollowsRoute(m, a, b, i);
    }
    forall i | 0 <= i <= Distance(a, b)
      ensures m.Contains(RouteXps(a, b)[i])
    {
      PointInMesh(m, a, b, i);
    }
  }

  /** No path between the same XPs has fewer hops than the route. */
  lemma {:induction false} NoShorterPath(p: seq<Coord>, a: Coord, b: Coord)
    requires IsPath(p, a, b)
    ensures |RouteXps(a, b)| <= |p|
    decreases |p|
  {
    if |p| > 1 {
      var q := p[1..];
      forall i | 0 <= i < |q| - 1
        ensures Adjacent(q[i], q[i + 1])
      {
        assert Adjacent(p[i + 1], p[i + 2]);
      }
      NoShorterPath(q, p[1], b);
      assert Adjacent(p[0], p[1]);
    }
  }

  // ---------------------------------------------------------------- no deadlock

  /** Link k+1 of a route waits for link k. */
  ghost predicate WaitsFor(m: Mesh, l: Link, k: Link)
  {
    exists from, to, i :: RouteUses(m, from, to, i, l, k)
  }

  ghost predicate RouteUses(m: Mesh, from: Node, to: Node, i: int, l: Link, k: Link)
  {
    OnMesh(m, from) && OnMesh(m, to) &&
    var hops := RouteHops(m, from, to);
    0 <= i < |hops| - 1 && hops[i].link == l && hops[i + 1].link == k
  }

  /** Rank of a directed link: into the mesh, then along X, then along Y, then out of the mesh. */
  function Rank(m: Mesh, l: Link): int {
    match l
    case Link(AtDevice(_), _) => -1
    case Link(AtXp(_), AtDevice(_)) => 2 * m.dimX + 2 * m.dimY
    case Link(AtXp(c), AtXp(d)) =>
      if c.x < d.x then c.x
      else if d.x < c.x then m.dimX - c.x
      else if c.y < d.y then 2 * m.dimX + c.y
      else 2 * m.dimX + m.dimY - c.y
  }

  /** The j-th link between XPs on the route from a to b. */
  function RouteLink(a: Coord, b: Coord, j: nat): Link {
    Link(AtXp(Point(a, b, j)), AtXp(Point(a, b, j + 1)))
  }

  lemma RankOnMesh(m: Mesh, a: Coord, b: Coord, j: nat)
    requires m.Contains(a) && m.Contains(b) && j < Distance(a, b)
    ensures 0 <= Rank(m, RouteLink(a, b, j)) < 2 * m.dimX + 2 * m.dimY
    ensures j + 1 < Distance(a, b) ==> Rank(m, RouteLink(a, b, j)) < Rank(m, RouteLink(a, b, j + 1))
  {
  }

  lemma HopRank(m: Mesh, from: Node, to: Node, i: nat)
    requires OnMesh(m, from) && OnMesh(m, to) && i < |RouteHops(m, from, to)|
    ensures var j, n := i - |FromHop(from)|, Distance(from.at, to.at);
            var rank := Rank(m, RouteHops(m, from, to)[i].link);
            && (j < 0 ==> j == -1 && rank == -1)
            && (0 <= j < n ==> rank == Rank(m, RouteLink(from.at, to.at, j)))
            && (j >= n ==> i == |RouteHops(m, from, to)| - 1 && rank == 2 * m.dimX + 2 * m.dimY)
  {
    hide Point, Distance, LinkSlices;
    var mid := MeshHops(m, from.at, to.at, Distance(from.at, to.at));
    var j := i - |FromHop(from)|;
    if 0 <= j < |mid| {
      assert RouteHops(m, from, to)[i] == mid[j];
    }
  }

  lemma RanksOfDistance(m: Mesh, from: Node, to: Node)
    requires OnMesh(m, from) && OnMesh(m, to)
    ensures m.Contains(from.at) && m.Contains(to.at) && Distance(from.at, to.at) >= 0
  {
  }

  lemma RankIncreasesOnRoute(m: Mesh, from: Node, to: Node, i: nat)
    requires OnMesh(m, from) && OnMesh(m, to) && i + 1 < |RouteHops(m, from, to)|
    ensures Rank(m, RouteHops(m, from, to)[i].link) < Rank(m, RouteHops(m, from, to)[i + 1].link)
  {
    hide *;
    HopRank(m, from, to, i);
    HopRank(m, from, to, i + 1);
    RanksOfDistance(m, from, to);
    var j := i - |FromHop(from)|;
    if 0 <= j < Distance(from.at, to.at) {
      RankOnMesh(m, from.at, to.at, j);
    } else if j == -1 && Distance(from.at, to.at) > 0 {
      RankOnMesh(m, from.at, to.at, 0);
    }
  }

  lemma RankIncreases(m: Mesh, l: Link, k: Link)
    requires WaitsFor(m, l, k)
    ensures Rank(m, l) < Rank(m, k)
  {
    var from, to, i :| RouteUses(m, from, to, i, l, k);
    RankIncreasesOnRoute(m, from, to, i);
  }

  lemma {:induction false} RankIncreasesAlong(m: Mesh, c: seq<Link>)
    requires |c| >= 2
    requires forall i :: 0 <= i < |c| - 1 ==> WaitsFor(m, c[i], c[i + 1])
    ensures Rank(m, c[0]) < Rank(m, c[|c| - 1])
    decreases |c|
  {
    var p := c[..|c| - 1];
    if |p| >= 2 {
      RankIncreasesAlong(m, p);
    }
    assert WaitsFor(m, c[|c| - 2], c[|c| - 1]);
    RankIncreases(m, c[|c| - 2], c[|c| - 1]);
  }

  /** Over all routes of a mesh of any size, no chain of waiting links comes back to its start. */
  lemma NoWaitingCycle(m: Mesh, c: seq<Link>)
    requires |c| >= 2
    requires forall i :: 0 <= i < |c| - 1 ==> WaitsFor(m, c[i], c[i + 1])
    ensures c[0] != c[|c| - 1]
  {
    RankIncreasesAlong(m, c);
  }

  // ---------------------------------------------------------------- cost in both directions

  /** Slices of the n east links that start at (lo, y). */
  ghost function RowSlices(m: Mesh, y: int, lo: int, n: nat): nat {
    if n == 0 then 0 else RowSlices(m, y, lo, n - 1) + East(m, Coord(lo + n - 1, y))
  }

  /** Slices of the n north links that start at (x, lo). */
  ghost function ColumnSlices(m: Mesh, x: int, lo: int, n: nat): nat {
    if n == 0 then 0 else ColumnSlices(m, x, lo, n - 1) + North(m, Coord(x, lo + n - 1))
  }

  lemma {:induction false} RowSlicesFromWest(m: Mesh, y: int, lo: int, n: nat)
    ensures RowSlices(m, y, lo, n + 1) == East(m, Coord(lo, y)) + RowSlices(m, y, lo + 1, n)
  {
    if n > 0 {
      RowSlicesFromWest(m, y, lo, n - 1);
    }
  }

  lemma {:induction false} ColumnSlicesFromSouth(m: Mesh, x: int, lo: int, n: nat)
    ensures ColumnSlices(m, x, lo, n + 1) == North(m, Coord(x, lo)) + ColumnSlices(m, x, lo + 1, n)
  {
    if n > 0 {
      ColumnSlicesFromSouth(m, x, lo, n - 1);
    }
  }

  function Min(p: int, q: int): int {
    if p <= q then p else q
  }

  /** Slices of the first n links of the route from a to b. */
  ghost function PathMcs(m: Mesh, a: Coord, b: Coord, n: nat): nat {
    if n == 0 then 0
    else PathMcs(m, a, b, n - 1) + LinkSlices(m, Point(a, b, n - 1), Point(a, b, n))
  }

  lemma {:induction false} PathMcsIsSum(m: Mesh, a: Coord, b: Coord, n: nat)
    ensures PathMcs(m, a, b, n) == SumMcs(MeshHops(m, a, b, n))
  {
    hide MeshHop, LinkSlices, Point;
    if n > 0 {
      PathMcsIsSum(m, a, b, n - 1);
      var hop := MeshHop(m, Point(a, b, n - 1), Point(a, b, n));
      assert hop.mcs == LinkSlices(m, Point(a, b, n - 1), Point(a, b, n)) by {
        HopSlices(m, Point(a, b, n - 1), Point(a, b, n));
      }
      assert MeshHops(m, a, b, n) == MeshHops(m, a, b, n - 1) + [hop];
      SumMcsAppend(MeshHops(m, a, b, n - 1), hop);
    }
  }

  lemma HopSlices(m: Mesh, c: Coord, d: Coord)
    ensures MeshHop(m, c, d).mcs == LinkSlices(m, c, d)
  {
  }

  lemma LinkOnRow(m: Mesh, a: Coord, b: Coord, n: nat)
    requires n < Abs(a.x - b.x)
    ensures LinkSlices(m, Point(a, b, n), Point(a, b, n + 1))
         == East(m, Coord(if a.x <= b.x then a.x + n else a.x - n - 1, a.y))
  {
  }

  lemma LinkOnColumn(m: Mesh, a: Coord, b: Coord, n: nat)
    requires n < Abs(a.y - b.y)
    ensures var dx := Abs(a.x - b.x);
            LinkSlices(m, Point(a, b, dx + n), Point(a, b, dx + n + 1))
            == North(m, Coord(b.x, if a.y <= b.y then a.y + n else a.y - n - 1))
  {
  }

  lemma {:induction false} McsAlongRow(m: Mesh, a: Coord, b: Coord, n: nat)
    requires n <= Abs(a.x - b.x)
    ensures PathMcs(m, a, b, n) == RowSlices(m, a.y, if a.x <= b.x then a.x else a.x - n, n)
  {
    if n > 0 {
      McsAlongRow(m, a, b, n - 1);
      LinkOnRow(m, a, b, n - 1);
      if a.x > b.x {
        RowSlicesFromWest(m, a.y, a.x - n, n - 1);
      }
    }
  }

  lemma {:induction false} McsAlongColumn(m: Mesh, a: Coord, b: Coord, n: nat)
    requires n <= Abs(a.y - b.y)
    ensures var dx := Abs(a.x - b.x);
            PathMcs(m, a, b, dx + n)
            == PathMcs(m, a, b, dx) + ColumnSlices(m, b.x, if a.y <= b.y then a.y else a.y - n, n)
  {
    if n > 0 {
      McsAlongColumn(m, a, b, n - 1);
      LinkOnColumn(m, a, b, n - 1);
      if a.y > b.y {
        ColumnSlicesFromSouth(m, b.x, a.y - n, n - 1);
      }
    }
  }

  function LocalCost(n: Node): nat {
    NodeLocalCosts(n).0 + NodeLocalCosts(n).1
  }

  /** A route pays for its hops, the row of its source, the column of its destination and both ends. */
  ghost function RouteCost(m: Mesh, from: Node, to: Node): nat {
    var a, b := from.at, to.at;
    Distance(a, b)
    + RowSlices(m, a.y, Min(a.x, b.x), Abs(a.x - b.x))
    + ColumnSlices(m, b.x, Min(a.y, b.y), Abs(a.y - b.y))
    + LocalCost(from) + LocalCost(to)
  }

  lemma MeshHopsCostIs(m: Mesh, a: Coord, b: Coord)
    ensures SumCost(MeshHops(m, a, b, Distance(a, b))) == Distance(a, b)
              + RowSlices(m, a.y, Min(a.x, b.x), Abs(a.x - b.x))
              + ColumnSlices(m, b.x, Min(a.y, b.y), Abs(a.y - b.y))
  {
    hide SumCost, MeshHops, RowSlices, ColumnSlices, PathMcs;
    MeshHopsCost(m, a, b, Distance(a, b));
    PathMcsIsSum(m, a, b, Distance(a, b));
    McsAlongRow(m, a, b, Abs(a.x - b.x));
    McsAlongColumn(m, a, b, Abs(a.y - b.y));
  }

  lemma RouteCostIsSumOfHops(m: Mesh, from: Node, to: Node)
    ensures SumCost(RouteHops(m, from, to)) == RouteCost(m, from, to)
  {
    var mid := MeshHops(m, from.at, to.at, Distance(from.at, to.at));
    SumCostConcat(FromHop(from), mid);
    SumCostConcat(FromHop(from) + mid, ToHop(to));
    MeshHopsCostIs(m, from.at, to.at);
    LocalCosts(from);
    LocalCosts(to);
  }

  /** What a slice count adds to a cost: itself, or nothing if it is not recorded. */
  function Recorded(n: Option<nat>): nat {
    match n
    case None => 0
    case Some(k) => k
  }

  /** Between neighbours a route costs one hop and the slices that the western or southern one records, either way. */
  lemma NeighbourCosts(m: Mesh, c: Coord)
    requires m.Rectangular() && m.Contains(c)
    ensures var (a, b) := (XpNode(m.cmnSeq, c), XpNode(m.cmnSeq, Coord(c.x + 1, c.y)));
            RouteCost(m, a, b) == RouteCost(m, b, a) == 1 + Recorded(m.xps[c].mcsEast)
    ensures var (a, b) := (XpNode(m.cmnSeq, c), XpNode(m.cmnSeq, Coord(c.x, c.y + 1)));
            RouteCost(m, a, b) == RouteCost(m, b, a) == 1 + Recorded(m.xps[c].mcsNorth)
  {
    OneLink(m, c.x, c.y);
    NoLinks(m, c.x, c.y);
    NoLinks(m, c.x + 1, c.y);
    NoLinks(m, c.x, c.y + 1);
    hide RowSlices, ColumnSlices;
  }

  lemma NoLinks(m: Mesh, x: int, y: int)
    ensures RowSlices(m, y, x, 0) == 0 && ColumnSlices(m, x, y, 0) == 0
  {
  }

  /** Each end adds its device's and its CAL's slices, and an XP adds nothing. */
  lemma EndsAddTheirSlices(m: Mesh, from: Node, to: Node)
    ensures RouteCost(m, from, to) == RouteCost(m, XpNode(from.cmnSeq, from.at), XpNode(to.cmnSeq, to.at))
                                      + (if from.DevNode? then Recorded(from.dcs) + Recorded(from.cal) else 0)
                                      + (if to.DevNode? then Recorded(to.dcs) + Recorded(to.cal) else 0)
  {
    hide RowSlices, ColumnSlices;
  }

  /** Opposite sides of every unit square of the mesh carry the same number of slices. */
  ghost predicate SquaresBalanced(m: Mesh) {
    forall x, y :: 0 <= x < m.dimX - 1 && 0 <= y < m.dimY - 1 ==>
      East(m, Coord(x, y)) == East(m, Coord(x, y + 1)) &&
      North(m, Coord(x, y)) == North(m, Coord(x + 1, y))
  }

  ghost predicate CostsSymmetric(m: Mesh) {
    forall from, to :: OnMesh(m, from) && OnMesh(m, to) ==> RouteCost(m, from, to) == RouteCost(m, to, from)
  }

  lemma {:induction false} RowsAlike(m: Mesh, y: int, z: int, lo: int, n: nat)
    requires SquaresBalanced(m) && 0 <= y <= z < m.dimY && 0 <= lo && lo + n < m.dimX
    ensures RowSlices(m, y, lo, n) == RowSlices(m, z, lo, n)
    decreases z - y, n
  {
    if y < z {
      RowsAlike(m, y, z - 1, lo, n);
      if n > 0 {
        RowsAlike(m, z - 1, z, lo, n - 1);
        if z - y > 1 {
          RowsAlike(m, z - 1, z, lo, n);
        } else {
          assert East(m, Coord(lo + n - 1, y)) == East(m, Coord(lo + n - 1, y + 1));
        }
      }
    }
  }

  lemma {:induction false} ColumnsAlike(m: Mesh, x: int, w: int, lo: int, n: nat)
    requires SquaresBalanced(m) && 0 <= x <= w < m.dimX && 0 <= lo && lo + n < m.dimY
    ensures ColumnSlices(m, x, lo, n) == ColumnSlices(m, w, lo, n)
    decreases w - x, n
  {
    if x < w {
      ColumnsAlike(m, x, w - 1, lo, n);
      if n > 0 {
        ColumnsAlike(m, w - 1, w, lo, n - 1);
        if w - x > 1 {
          ColumnsAlike(m, w - 1, w, lo, n);
        } else {
          assert North(m, Coord(x, lo + n - 1)) == North(m, Coord(x + 1, lo + n - 1));
        }
      }
    }
  }

  lemma BalancedImpliesSymmetric(m: Mesh, from: Node, to: Node)
    requires SquaresBalanced(m) && OnMesh(m, from) && OnMesh(m, to)
    ensures RouteCost(m, from, to) == RouteCost(m, to, from)
  {
    var a, b := from.at, to.at;
    var x, y, dx, dy := Min(a.x, b.x), Min(a.y, b.y), Abs(a.x - b.x), Abs(a.y - b.y);
    RowsAlike(m, y, y + dy, x, dx);
    ColumnsAlike(m, x, x + dx, y, dy);
    assert {a.y, b.y} == {y, y + dy} && {a.x, b.x} == {x, x + dx};
    assert RowSlices(m, a.y, x, dx) == RowSlices(m, b.y, x, dx);
    assert ColumnSlices(m, a.x, y, dy) == ColumnSlices(m, b.x, y, dy);
  }

  lemma OneLink(m: Mesh, x: int, y: int)
    ensures RowSlices(m, y, x, 1) == East(m, Coord(x, y))
    ensures ColumnSlices(m, x, y, 1) == North(m, Coord(x, y))
  {
  }

  lemma SymmetricImpliesSquare(m: Mesh, x: int, y: int)
    requires CostsSymmetric(m) && 0 <= x < m.dimX - 1 && 0 <= y < m.dimY - 1
    ensures East(m, Coord(x, y)) == East(m, Coord(x, y + 1))
    ensures North(m, Coord(x, y)) == North(m, Coord(x + 1, y))
  {
    var sw, ne := XpNode(m.cmnSeq, Coord(x, y)), XpNode(m.cmnSeq, Coord(x + 1, y + 1));
    var se, nw := XpNode(m.cmnSeq, Coord(x + 1, y)), XpNode(m.cmnSeq, Coord(x, y + 1));
    assert RouteCost(m, sw, ne) == RouteCost(m, ne, sw);
    assert RouteCost(m, se, nw) == RouteCost(m, nw, se);
    OneLink(m, x, y);
    OneLink(m, x, y + 1);
    OneLink(m, x + 1, y);
  }

  /**
   The way back costs what the way out costs, for all pairs of nodes, exactly when opposite
   sides of every unit square carry the same slices: X-first routes out and back use
   different links whenever the ends differ in both coordinates.
   */
  lemma SymmetricIffSquaresBalanced(m: Mesh)
    ensures CostsSymmetric(m) <==> SquaresBalanced(m)
  {
    if SquaresBalanced(m) {
      forall from, to | OnMesh(m, from) && OnMesh(m, to)
        ensures RouteCost(m, from, to) == RouteCost(m, to, from)
      {
        BalancedImpliesSymmetric(m, from, to);
      }
    }
    if CostsSymmetric(m) {
      forall x, y | 0 <= x < m.dimX - 1 && 0 <= y < m.dimY - 1
        ensures East(m, Coord(x, y)) == East(m, Coord(x, y + 1))
        ensures North(m, Coord(x, y)) == North(m, Coord(x + 1, y))
      {
        SymmetricImpliesSquare(m, x, y);
      }
    }
  }

  /** Within a row or a column the two directions use the same links. */
  lemma SymmetricOnALine(m: Mesh, from: Node, to: Node)
    requires from.at.x == to.at.x || from.at.y == to.at.y
    ensures RouteCost(m, from, to) == RouteCost(m, to, from)
  {
  }
}
