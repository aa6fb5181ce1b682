/**
 Finding a mesh's dimensions.  The width of the coordinate fields depends on dimensions that
 discovery does not know yet, so it looks for the one XP whose id is the same for all
 widths, (0, 1), and reads the X dimension off that XP's logical id.
 */
module Discovery {
  import opened Arithmetic
  import opened Bits
  import opened Options
  import opened NodeIds

  /** What an XP's node-info register gives: node id and logical id. */
  datatype XpInfo = XpInfo(nodeId: nat, logicalId: nat)

  datatype Topology = Topology(dimX: nat, dimY: nat, coordBits: nat, coordXp: map<(nat, nat), XpInfo>)

  datatype DiscoveryError = LogicalIdTooLarge | NoColumns | NotRectangular

  // ---------------------------------------------------------------- the usual numbering

  function Cell(dimX: nat, dimY: nat, x: nat, y: nat): XpInfo {
    XpInfo(XyId(CoordBits(dimX, dimY), x, y), y * dimX + x)
  }

  ghost predicate HasCell(xps: seq<XpInfo>, dimX: nat, dimY: nat, x: nat, y: nat) {
    Cell(dimX, dimY, x, y) in xps
  }

  ghost predicate IsCell(dimX: nat, dimY: nat, xp: XpInfo) {
    exists x: nat, y: nat :: InMesh(dimX, dimY, x, y) && xp == Cell(dimX, dimY, x, y)
  }

  /** In any order, the XPs of a mesh with logical ids counted row by row. */
  ghost predicate RowMajor(xps: seq<XpInfo>, dimX: nat, dimY: nat) {
    0 < dimX <= 16 && 0 < dimY <= 16 &&
    (forall xp :: xp in xps ==> IsCell(dimX, dimY, xp)) &&
    (forall x: nat, y: nat :: InMesh(dimX, dimY, x, y) ==> HasCell(xps, dimX, dimY, x, y))
  }

  // ---------------------------------------------------------------- the algorithm

  function LogicalIds(xps: seq<XpInfo>): set<nat> {
    set xp | xp in xps :: xp.logicalId
  }

  /** (0, 1), whatever the width of the fields: bits 3 to 10 of the id hold the number 1. */
  predicate LooksLikeOriginNorth(xp: XpInfo) {
    Field(xp.nodeId, 3, 8) == 1
  }

  /** The logical id of the XP at (0, 1); a mesh without one has a single row. */
  method FindWidth(xps: seq<XpInfo>, nXps: nat) returns (dimX: nat)
    ensures (exists xp :: xp in xps && LooksLikeOriginNorth(xp) && dimX == xp.logicalId)
         || (dimX == nXps && forall xp :: xp in xps ==> !LooksLikeOriginNorth(xp))
  {
    for i := 0 to |xps|
      invariant forall j :: 0 <= j < i ==> !LooksLikeOriginNorth(xps[j])
    {
      if LooksLikeOriginNorth(xps[i]) {
        return xps[i].logicalId;
      }
    }
    return nXps;
  }

  ghost predicate Indexed(xps: seq<XpInfo>, cb: nat, coordXp: map<(nat, nat), XpInfo>) {
    (forall c :: c in coordXp ==> exists xp :: xp in xps && c == IdXy(cb, xp.nodeId) && coordXp[c] == xp) &&
    (forall xp :: xp in xps ==> IdXy(cb, xp.nodeId) in coordXp)
  }

  method IndexByCoordinates(xps: seq<XpInfo>, cb: nat) returns (coordXp: map<(nat, nat), XpInfo>)
    ensures Indexed(xps, cb, coordXp)
  {
    hide IdXy;
    coordXp := map[];
    for i := 0 to |xps|
      invariant Indexed(xps[..i], cb, coordXp)
    {
      coordXp := coordXp[IdXy(cb, xps[i].nodeId) := xps[i]];
      assert xps[..i + 1] == xps[..i] + [xps[i]];
    }
    assert xps[..|xps|] == xps;
  }

  method Discover(xps: seq<XpInfo>) returns (r: Result<Topology, DiscoveryError>)
    ensures forall dimX: nat, dimY: nat :: RowMajor(xps, dimX, dimY) ==> r.Ok? && Recovered(r.value, dimX, dimY)
    ensures r == Err(LogicalIdTooLarge) <==> exists xp :: xp in xps && xp.logicalId >= |LogicalIds(xps)|
    ensures r.Ok? ==> r.value.dimX * r.value.dimY == |LogicalIds(xps)|
    ensures r == Err(NoColumns) ==> (exists xp :: xp in xps && LooksLikeOriginNorth(xp) && xp.logicalId == 0) || LogicalIds(xps) == {}
    ensures r == Err(NotRectangular) ==>
              exists xp :: xp in xps && LooksLikeOriginNorth(xp) && xp.logicalId > 0 && |LogicalIds(xps)| % xp.logicalId != 0
  {
    hide RowMajor, LogicalIds, LooksLikeOriginNorth, CoordBits, Recovered, Indexed;
    var nXps := |LogicalIds(xps)|;
    forall dx: nat, dy: nat | RowMajor(xps, dx, dy)
      ensures nXps == dx * dy && forall xp :: xp in xps ==> xp.logicalId < nXps
    {
      LogicalIdsFill(xps, dx, dy);
    }
    for i := 0 to |xps|
      invariant forall j :: 0 <= j < i ==> xps[j].logicalId < nXps
    {
      if xps[i].logicalId >= nXps {
        return Err(LogicalIdTooLarge);
      }
    }
    var dimX := FindWidth(xps, nXps);
    forall dx: nat, dy: nat | RowMajor(xps, dx, dy)
      ensures dimX == dx && dx > 0 && nXps == dx * dy && nXps % dx == 0 && nXps / dx == dy
    {
      OriginNorthTellsWidth(xps, dx, dy);
      DivideProduct(dx, dy);
    }
    if dimX == 0 {
      return Err(NoColumns);
    }
    if nXps % dimX != 0 {
      return Err(NotRectangular);
    }
    var dimY := nXps / dimX;
    var cb := CoordBits(dimX, dimY);
    var coordXp := IndexByCoordinates(xps, cb);
    var t := Topology(dimX, dimY, cb, coordXp);
    forall dx: nat, dy: nat | RowMajor(xps, dx, dy)
      ensures Recovered(t, dx, dy)
    {
      CoordinatesComeBack(xps, dx, dy, t);
    }
    return Ok(t);
  }

  /** The dimensions, and at each coordinate the XP that is there. */
  ghost predicate Recovered(t: Topology, dimX: nat, dimY: nat) {
    t.dimX == dimX && t.dimY == dimY && t.coordBits == CoordBits(dimX, dimY) &&
    (forall x: nat, y: nat :: InMesh(dimX, dimY, x, y) <==> (x, y) in t.coordXp) &&
    (forall x: nat, y: nat :: InMesh(dimX, dimY, x, y) ==> t.coordXp[(x, y)] == Cell(dimX, dimY, x, y))
  }

  // ---------------------------------------------------------------- why it works

  lemma DivideProduct(a: nat, b: nat)
    requires a > 0
    ensures a * b % a == 0 && a * b / a == b
  {
    DivModUnique(a * b, a, b, 0);
  }

  lemma CellBounds(dimX: nat, dimY: nat, x: nat, y: nat)
    requires InMesh(dimX, dimY, x, y)
    ensures y * dimX + x < dimX * dimY
  {
    Multiples(y + 1, dimY, dimX);
  }

  ghost function Below(n: nat): (s: set<nat>)
    ensures |s| == n
    ensures forall k: nat :: k in s <==> k < n
  {
    if n == 0 then {} else Below(n - 1) + {n - 1}
  }

  lemma LogicalIdsFill(xps: seq<XpInfo>, dimX: nat, dimY: nat)
    requires RowMajor(xps, dimX, dimY)
    ensures |LogicalIds(xps)| == dimX * dimY
    ensures forall xp :: xp in xps ==> xp.logicalId < dimX * dimY
  {
    forall xp | xp in xps
      ensures xp.logicalId < dimX * dimY
    {
      LogicalIdIsBelow(xps, dimX, dimY, xp);
    }
    forall k: nat | k < dimX * dimY
      ensures k in LogicalIds(xps)
    {
      LogicalIdOccurs(xps, dimX, dimY, k);
    }
    hide RowMajor;
    assert LogicalIds(xps) == Below(dimX * dimY);
  }

  lemma LogicalIdIsBelow(xps: seq<XpInfo>, dimX: nat, dimY: nat, xp: XpInfo)
    requires RowMajor(xps, dimX, dimY) && xp in xps
    ensures xp.logicalId < dimX * dimY
  {
    var x: nat, y: nat :| InMesh(dimX, dimY, x, y) && xp == Cell(dimX, dimY, x, y);
    CellBounds(dimX, dimY, x, y);
  }

  lemma LogicalIdOccurs(xps: seq<XpInfo>, dimX: nat, dimY: nat, k: nat)
    requires RowMajor(xps, dimX, dimY) && k < dimX * dimY
    ensures k in LogicalIds(xps)
  {
    var x, y := k % dimX, k / dimX;
    assert k == y * dimX + x;
    RowOf(k, dimX, dimY);
    assert HasCell(xps, dimX, dimY, x, y);
    assert Cell(dimX, dimY, x, y) in xps;
  }

  lemma RowOf(k: nat, dimX: nat, dimY: nat)
    requires dimX > 0 && k < dimX * dimY
    ensures InMesh(dimX, dimY, k % dimX, k / dimX)
  {
    if k / dimX >= dimY {
      Multiples(dimY, k / dimX, dimX);
    }
  }

  lemma OriginNorthId(dimX: nat, dimY: nat, x: nat, y: nat)
    requires dimX <= 16 && dimY <= 16 && InMesh(dimX, dimY, x, y)
    ensures LooksLikeOriginNorth(Cell(dimX, dimY, x, y)) <==> x == 0 && y == 1
  {
    var cb := CoordBits(dimX, dimY);
    var id := XyId(cb, x, y);
    CoordBitsFit(dimX, dimY);
    SmallPowers();
    assert x < 16 && y < 16 && (cb == 2 ==> y < 4) && (cb == 3 ==> y < 8);
    FieldThreeEight(id);
    hide Pow2, CoordBits, Field, XyId;
    XyIdAdds(cb, x, y);
    OriginNorthNumber(x, y);
  }

  lemma FieldThreeEight(id: nat)
    ensures Field(id, 3, 8) == id / 8 % 256
  {
    SmallPowers();
  }

  lemma OriginNorthNumber(x: nat, y: nat)
    requires x < 16 && y < 16
    ensures y < 4 ==> ((32 * x + 8 * y) / 8 % 256 == 1 <==> x == 0 && y == 1)
    ensures y < 8 ==> ((64 * x + 8 * y) / 8 % 256 == 1 <==> x == 0 && y == 1)
    ensures (128 * x + 8 * y) / 8 % 256 == 1 <==> x == 0 && y == 1
  {
    assert (32 * x + 8 * y) / 8 == 4 * x + y;
    assert (64 * x + 8 * y) / 8 == 8 * x + y;
    assert (128 * x + 8 * y) / 8 == 16 * x + y;
  }

  lemma OriginNorthTellsWidth(xps: seq<XpInfo>, dimX: nat, dimY: nat)
    requires RowMajor(xps, dimX, dimY)
    ensures dimX > 0
    ensures forall xp :: xp in xps && LooksLikeOriginNorth(xp) ==> xp.logicalId == dimX
    ensures (forall xp :: xp in xps ==> !LooksLikeOriginNorth(xp)) ==> dimY == 1
  {
    forall xp | xp in xps && LooksLikeOriginNorth(xp)
      ensures xp.logicalId == dimX
    {
      var x: nat, y: nat :| InMesh(dimX, dimY, x, y) && xp == Cell(dimX, dimY, x, y);
      OriginNorthId(dimX, dimY, x, y);
    }
    if dimY > 1 {
      OriginNorthId(dimX, dimY, 0, 1);
      assert HasCell(xps, dimX, dimY, 0, 1);
      assert Cell(dimX, dimY, 0, 1) in xps;
    }
  }

  lemma CoordinatesComeBack(xps: seq<XpInfo>, dimX: nat, dimY: nat, t: Topology)
    requires RowMajor(xps, dimX, dimY)
    requires t.dimX == dimX && t.dimY == dimY && t.coordBits == CoordBits(dimX, dimY)
    requires Indexed(xps, t.coordBits, t.coordXp)
    ensures Recovered(t, dimX, dimY)
  {
    hide XyId, IdXy, CoordBits;
    forall x: nat, y: nat | InMesh(dimX, dimY, x, y)
      ensures (x, y) in t.coordXp
    {
      assert HasCell(xps, dimX, dimY, x, y);
      assert Cell(dimX, dimY, x, y) in xps;
      DecodeXy(dimX, dimY, x, y);
    }
    forall c | c in t.coordXp
      ensures InMesh(dimX, dimY, c.0, c.1) && t.coordXp[c] == Cell(dimX, dimY, c.0, c.1)
    {
      var xp := t.coordXp[c];
      assert IsCell(dimX, dimY, xp);
      var x: nat, y: nat :| InMesh(dimX, dimY, x, y) && xp == Cell(dimX, dimY, x, y);
      DecodeXy(dimX, dimY, x, y);
    }
  }
}
