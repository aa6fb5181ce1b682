/**
 Node ids of a mesh.  An id packs (x, y, port, device): the width of a coordinate depends
 on the mesh, the split of the three low bits between port and device on the XP.
 */
module NodeIds {
  import opened Bits
  import opened Options

  function Max(a: nat, b: nat): nat {
    if a >= b then a else b
  }

  function CoordBits(dimX: nat, dimY: nat): nat {
    var md := Max(dimX, dimY);
    if md > 8 then 4 else if md > 4 then 3 else 2
  }

  /** The id of the XP at (x, y). */
  function XyId(cb: nat, x: nat, y: nat): nat {
    Or(x * Pow2(3 + cb), y * Pow2(3))
  }

  function IdXy(cb: nat, id: nat): (nat, nat) {
    (Field(id, 3 + cb, cb), Field(id, 3, cb))
  }

  lemma SmallPowers()
    ensures Pow2(0) == 1 && Pow2(1) == 2 && Pow2(2) == 4 && Pow2(3) == 8 && Pow2(4) == 16
    ensures Pow2(5) == 32 && Pow2(6) == 64 && Pow2(7) == 128 && Pow2(8) == 256
  {
    assert Pow2(4) == 2 * Pow2(3);
    assert Pow2(8) == 2 * Pow2(7) == 4 * Pow2(6) == 8 * Pow2(5);
  }

  /** The id of an XP whose Y coordinate fits, in plain numbers. */
  lemma XyIdAdds(cb: nat, x: nat, y: nat)
    requires 2 <= cb <= 4 && y < Pow2(cb)
    ensures XyId(cb, x, y) == if cb == 2 then 32 * x + 8 * y else if cb == 3 then 64 * x + 8 * y else 128 * x + 8 * y
  {
    SmallPowers();
    OrDisjoint(x, 8 * y, 3 + cb);
  }

  /** The coordinate fields of an id, in plain numbers. */
  lemma IdXyIs(cb: nat, id: nat)
    requires 2 <= cb <= 4
    ensures IdXy(cb, id) ==
            if cb == 2 then (id / 32 % 4, id / 8 % 4)
            else if cb == 3 then (id / 64 % 8, id / 8 % 8)
            else (id / 128 % 16, id / 8 % 16)
  {
    SmallPowers();
  }

  lemma SplitFields(x: nat, y: nat, low: nat)
    requires low < 8
    ensures x < 4 && y < 4 ==> (32 * x + 8 * y + low) / 32 % 4 == x && (32 * x + 8 * y + low) / 8 % 4 == y
    ensures x < 8 && y < 8 ==> (64 * x + 8 * y + low) / 64 % 8 == x && (64 * x + 8 * y + low) / 8 % 8 == y
    ensures x < 16 && y < 16 ==> (128 * x + 8 * y + low) / 128 % 16 == x && (128 * x + 8 * y + low) / 8 % 16 == y
  {
    assert (32 * x + 8 * y + low) / 8 == 4 * x + y;
    assert (64 * x + 8 * y + low) / 8 == 8 * x + y;
    assert (128 * x + 8 * y + low) / 8 == 16 * x + y;
  }

  /** Coordinates are unaffected by the port and device bits below them. */
  lemma XyFields(cb: nat, x: nat, y: nat, low: nat)
    requires 2 <= cb <= 4 && x < Pow2(cb) && y < Pow2(cb) && low < 8
    ensures IdXy(cb, XyId(cb, x, y) + low) == (x, y)
    ensures XyId(cb, x, y) % 8 == 0
  {
    hide *;
    SmallPowers();
    XyIdAdds(cb, x, y);
    IdXyIs(cb, XyId(cb, x, y) + low);
    SplitFields(x, y, low);
  }

  // ---------------------------------------------------------------- which meshes the scheme fits

  ghost predicate InMesh(dimX: nat, dimY: nat, x: nat, y: nat) {
    x < dimX && y < dimY
  }

  /** Decoding an XP's id gives back its coordinates, everywhere in the mesh. */
  ghost predicate CoordinatesRecovered(dimX: nat, dimY: nat) {
    var cb := CoordBits(dimX, dimY);
    forall x: nat, y: nat :: InMesh(dimX, dimY, x, y) ==> IdXy(cb, XyId(cb, x, y)) == (x, y)
  }

  /** Sorting XPs by id sorts them by (x, y). */
  ghost predicate IdOrderIsXyOrder(dimX: nat, dimY: nat) {
    var cb := CoordBits(dimX, dimY);
    forall x: nat, y: nat, u: nat, v: nat :: InMesh(dimX, dimY, x, y) && InMesh(dimX, dimY, u, v) ==>
      (XyId(cb, x, y) < XyId(cb, u, v) <==> x < u || (x == u && y < v))
  }

  lemma DecodeXy(dimX: nat, dimY: nat, x: nat, y: nat)
    requires dimX <= 16 && dimY <= 16 && InMesh(dimX, dimY, x, y)
    ensures var cb := CoordBits(dimX, dimY);
            IdXy(cb, XyId(cb, x, y)) == (x, y)
  {
    SmallPowers();
    XyFields(CoordBits(dimX, dimY), x, y, 0);
  }

  /** Four bits a coordinate is all there is: the scheme decodes exactly the meshes up to 16 x 16. */
  lemma CoordinatesRecoveredIff(dimX: nat, dimY: nat)
    requires dimX > 0 && dimY > 0
    ensures CoordinatesRecovered(dimX, dimY) <==> dimX <= 16 && dimY <= 16
  {
    var cb := CoordBits(dimX, dimY);
    SmallPowers();
    if dimX <= 16 && dimY <= 16 {
      forall x: nat, y: nat | InMesh(dimX, dimY, x, y)
        ensures IdXy(cb, XyId(cb, x, y)) == (x, y)
      {
        DecodeXy(dimX, dimY, x, y);
      }
    } else if dimX > 16 {
      assert InMesh(dimX, dimY, 16, 0);
      assert IdXy(cb, XyId(cb, 16, 0)).0 < 16;
    } else {
      assert InMesh(dimX, dimY, 0, 16);
      assert IdXy(cb, XyId(cb, 0, 16)).1 < 16;
    }
  }

  /** Coordinate fields are the narrowest of two to four bits that hold both dimensions; four is the limit. */
  lemma CoordBitsNarrowest(dimX: nat, dimY: nat)
    ensures var cb := CoordBits(dimX, dimY);
            && 2 <= cb <= 4
            && (cb < 4 ==> dimX <= Pow2(cb) && dimY <= Pow2(cb))
            && (cb > 2 ==> dimX > Pow2(cb - 1) || dimY > Pow2(cb - 1))
  {
    SmallPowers();
  }

  lemma CoordBitsFit(dimX: nat, dimY: nat)
    ensures 2 <= CoordBits(dimX, dimY) <= 4
    ensures dimX <= 16 ==> dimX <= Pow2(CoordBits(dimX, dimY))
    ensures dimY <= 16 ==> dimY <= Pow2(CoordBits(dimX, dimY))
  {
    SmallPowers();
  }

  lemma XyIdOfFirstColumn(cb: nat, y: nat)
    ensures XyId(cb, 0, y) == 8 * y
  {
    SmallPowers();
    OrZeroLeft(8 * y);
  }

  lemma XyIdOrder(dimX: nat, dimY: nat, x: nat, y: nat, u: nat, v: nat)
    requires dimX <= 1 || dimY <= 16
    requires x < dimX && y < dimY && u < dimX && v < dimY
    ensures var cb := CoordBits(dimX, dimY);
            XyId(cb, x, y) < XyId(cb, u, v) <==> x < u || (x == u && y < v)
  {
    hide *;
    SmallPowers();
    CoordBitsFit(dimX, dimY);
    var cb := CoordBits(dimX, dimY);
    if dimX <= 1 {
      XyIdOfFirstColumn(cb, y);
      XyIdOfFirstColumn(cb, v);
    } else {
      XyIdAdds(cb, x, y);
      XyIdAdds(cb, u, v);
    }
  }

  /** A Y coordinate of five bits runs into the X field: (0, 16) then has the id of (1, 0). */
  lemma IdOrderIsXyOrderIff(dimX: nat, dimY: nat)
    ensures IdOrderIsXyOrder(dimX, dimY) <==> dimX <= 1 || dimY <= 16
  {
    var cb := CoordBits(dimX, dimY);
    if dimX <= 1 || dimY <= 16 {
      forall x: nat, y: nat, u: nat, v: nat | InMesh(dimX, dimY, x, y) && InMesh(dimX, dimY, u, v)
        ensures XyId(cb, x, y) < XyId(cb, u, v) <==> x < u || (x == u && y < v)
      {
        XyIdOrder(dimX, dimY, x, y, u, v);
      }
    } else {
      SmallPowers();
      OrZeroLeft(128);
      OrZero(128);
      assert InMesh(dimX, dimY, 0, 16) && InMesh(dimX, dimY, 1, 0);
      assert XyId(cb, 0, 16) == XyId(cb, 1, 0);
    }
  }

  /** No two XPs have the same id. */
  ghost predicate IdsDistinct(dimX: nat, dimY: nat) {
    var cb := CoordBits(dimX, dimY);
    forall x: nat, y: nat, u: nat, v: nat ::
      InMesh(dimX, dimY, x, y) && InMesh(dimX, dimY, u, v) && XyId(cb, x, y) == XyId(cb, u, v) ==> (x, y) == (u, v)
  }

  /** Ids collide exactly where their order fails: beyond 16 rows, unless there is one column only. */
  lemma IdsDistinctIff(dimX: nat, dimY: nat)
    ensures IdsDistinct(dimX, dimY) <==> dimX <= 1 || dimY <= 16
  {
    var cb := CoordBits(dimX, dimY);
    IdOrderIsXyOrderIff(dimX, dimY);
    if dimX <= 1 || dimY <= 16 {
      hide XyId, CoordBits;
      assert IdOrderIsXyOrder(dimX, dimY);
    } else {
      SmallPowers();
      OrZeroLeft(128);
      OrZero(128);
      assert InMesh(dimX, dimY, 0, 16) && InMesh(dimX, dimY, 1, 0);
      assert XyId(cb, 0, 16) == XyId(cb, 1, 0);
    }
  }

  // ---------------------------------------------------------------- ports and devices

  /** An XP's ports: port number to CAL multiplicity, 0 for a port without a CAL. */
  datatype Xp = Xp(nPorts: nat, ports: map<nat, nat>)

  datatype Place = Place(x: nat, y: nat, port: nat)

  function DeviceBits(nPorts: nat): nat {
    if nPorts > 2 then 1 else 2
  }

  function BaseId(xpId: nat, nPorts: nat, port: nat): nat {
    xpId + port * Pow2(DeviceBits(nPorts))
  }

  /** The ids that a port announces. */
  function PortIds(base: nat, cal: nat): seq<nat> {
    [base]
    + (if cal != 0 then [base + 1] else [])
    + (if cal == 3 || cal == 4 then [base + 2] else [])
    + (if cal == 4 then [base + 3] else [])
  }

  /** Python's (id & ~mask) == base, where mask covers the device bits of a port with a CAL. */
  predicate IsValidId(base: nat, nPorts: nat, cal: nat, id: nat) {
    var span := if cal == 0 then 1 else Pow2(DeviceBits(nPorts));
    id - id % span == base
  }

  /** Decode an id of an XP with n ports: x, y, port and device. */
  function Decode(cb: nat, nPorts: nat, id: nat): (nat, nat, nat, nat) {
    var db := DeviceBits(nPorts);
    (IdXy(cb, id).0, IdXy(cb, id).1, Field(id, db, 3 - db), Field(id, 0, db))
  }

  function Encode(cb: nat, nPorts: nat, x: nat, y: nat, port: nat, device: nat): nat {
    BaseId(XyId(cb, x, y), nPorts, port) + device
  }

  /** The coordinates that an XP with n ports can give to a device. */
  predicate Encodable(cb: nat, nPorts: nat, x: nat, y: nat, port: nat, device: nat) {
    var db := DeviceBits(nPorts);
    x < Pow2(cb) && y < Pow2(cb) && port < Pow2(3 - db) && device < Pow2(db)
  }

  /** The port and device fields, in plain numbers. */
  lemma PortDeviceIs(nPorts: nat, id: nat)
    ensures var db := DeviceBits(nPorts);
            (Field(id, db, 3 - db), Field(id, 0, db))
            == if nPorts > 2 then (id / 2 % 4, id % 2) else (id / 4 % 2, id % 4)
  {
    SmallPowers();
  }

  lemma EncodeIs(cb: nat, nPorts: nat, x: nat, y: nat, port: nat, device: nat)
    ensures Encode(cb, nPorts, x, y, port, device)
         == XyId(cb, x, y) + if nPorts > 2 then 2 * port + device else 4 * port + device
  {
    SmallPowers();
  }

  lemma EncodableIs(cb: nat, nPorts: nat, x: nat, y: nat, port: nat, device: nat)
    ensures Encodable(cb, nPorts, x, y, port, device) <==>
            x < Pow2(cb) && y < Pow2(cb) &&
            if nPorts > 2 then port < 4 && device < 2 else port < 2 && device < 4
  {
    SmallPowers();
  }

  lemma DecodeIs(cb: nat, nPorts: nat, id: nat)
    ensures var (port, device) := if nPorts > 2 then (id / 2 % 4, id % 2) else (id / 4 % 2, id % 4);
            Decode(cb, nPorts, id) == (IdXy(cb, id).0, IdXy(cb, id).1, port, device)
  {
    PortDeviceIs(nPorts, id);
  }

  lemma DecodeEncode(cb: nat, nPorts: nat, x: nat, y: nat, port: nat, device: nat)
    requires 2 <= cb <= 4 && Encodable(cb, nPorts, x, y, port, device)
    ensures Decode(cb, nPorts, Encode(cb, nPorts, x, y, port, device)) == (x, y, port, device)
  {
    hide *;
    var low := if nPorts > 2 then 2 * port + device else 4 * port + device;
    var id := Encode(cb, nPorts, x, y, port, device);
    EncodeIs(cb, nPorts, x, y, port, device);
    EncodableIs(cb, nPorts, x, y, port, device);
    DecodeIs(cb, nPorts, id);
    XyFields(cb, x, y, low);
    LowFields(XyId(cb, x, y), nPorts > 2, port, device);
  }

  lemma LowFields(base: nat, extra: bool, port: nat, device: nat)
    requires base % 8 == 0 && if extra then port < 4 && device < 2 else port < 2 && device < 4
    ensures extra ==> (base + (2 * port + device)) / 2 % 4 == port && (base + (2 * port + device)) % 2 == device
    ensures !extra ==> (base + (4 * port + device)) / 4 % 2 == port && (base + (4 * port + device)) % 4 == device
  {
    if extra {
      FourPorts(base / 8, port, device);
    } else {
      TwoPorts(base / 8, port, device);
    }
  }

  lemma FourPorts(q: nat, port: nat, device: nat)
    requires port < 4 && device < 2
    ensures (8 * q + (2 * port + device)) / 2 % 4 == port && (8 * q + (2 * port + device)) % 2 == device
  {
    assert (8 * q + (2 * port + device)) / 2 == 4 * q + port;
  }

  lemma TwoPorts(q: nat, port: nat, device: nat)
    requires port < 2 && device < 4
    ensures (8 * q + (4 * port + device)) / 4 % 2 == port && (8 * q + (4 * port + device)) % 4 == device
  {
    assert (8 * q + (4 * port + device)) / 4 == 2 * q + port;
  }

  lemma IdBelow(cb: nat)
    requires 2 <= cb <= 4
    ensures Pow2(3 + 2 * cb) == if cb == 2 then 128 else if cb == 3 then 512 else 2048
  {
    SmallPowers();
    assert Pow2(11) == 2 * Pow2(10) == 4 * Pow2(9) == 8 * Pow2(8);
  }

  lemma JoinLowFields(id: nat)
    ensures 2 * (id / 2 % 4) + id % 2 == id % 8
    ensures 4 * (id / 4 % 2) + id % 4 == id % 8
  {
    var q := id / 8;
    assert id / 2 == 4 * q + id % 8 / 2;
    assert id / 4 == 2 * q + id % 8 / 4;
  }

  lemma JoinCoordinates(q: nat)
    ensures q < 16 ==> 4 * (q / 4 % 4) + q % 4 == q
    ensures q < 64 ==> 8 * (q / 8 % 8) + q % 8 == q
    ensures q < 256 ==> 16 * (q / 16 % 16) + q % 16 == q
  {
  }

  lemma JoinFields(id: nat)
    ensures id < 128 ==> 32 * (id / 32 % 4) + 8 * (id / 8 % 4) + id % 8 == id
    ensures id < 512 ==> 64 * (id / 64 % 8) + 8 * (id / 8 % 8) + id % 8 == id
    ensures id < 2048 ==> 128 * (id / 128 % 16) + 8 * (id / 8 % 16) + id % 8 == id
  {
    var q := id / 8;
    assert id / 32 == q / 4;
    assert id / 64 == q / 8;
    assert id / 128 == q / 16;
    JoinCoordinates(q);
  }

  lemma EncodeDecode(cb: nat, nPorts: nat, id: nat)
    requires 2 <= cb <= 4 && id < Pow2(3 + 2 * cb)
    ensures var (x, y, port, device) := Decode(cb, nPorts, id);
            Encodable(cb, nPorts, x, y, port, device) && Encode(cb, nPorts, x, y, port, device) == id
  {
    hide *;
    var (x, y, port, device) := Decode(cb, nPorts, id);
    DecodeIs(cb, nPorts, id);
    EncodeIs(cb, nPorts, x, y, port, device);
    EncodableIs(cb, nPorts, x, y, port, device);
    SmallPowers();
    IdBelow(cb);
    IdXyIs(cb, id);
    JoinLowFields(id);
    JoinFields(id);
    XyIdAdds(cb, x, y);
  }

  /** A mesh of XPs whose ports fit: port numbers below the port count, CALs within the device bits. */
  datatype Mesh = Mesh(dimX: nat, dimY: nat, xps: map<(nat, nat), Xp>) {
    function Cb(): nat {
      CoordBits(dimX, dimY)
    }

    ghost predicate Valid() {
      0 < dimX <= 16 && 0 < dimY <= 16 &&
      forall c :: c in xps ==> InMesh(dimX, dimY, c.0, c.1) && Fits(xps[c])
    }

    predicate HasPort(p: Place) {
      (p.x, p.y) in xps && p.port in xps[(p.x, p.y)].ports
    }

    function Base(p: Place): nat
      requires HasPort(p)
    {
      BaseId(XyId(Cb(), p.x, p.y), xps[(p.x, p.y)].nPorts, p.port)
    }

    function Ids(p: Place): seq<nat>
      requires HasPort(p)
    {
      PortIds(Base(p), xps[(p.x, p.y)].ports[p.port])
    }

    predicate Owns(p: Place, id: nat) {
      HasPort(p) && IsValidId(Base(p), xps[(p.x, p.y)].nPorts, xps[(p.x, p.y)].ports[p.port], id)
    }
  }

  ghost predicate Fits(xp: Xp) {
    xp.nPorts <= 4 &&
    forall p :: p in xp.ports ==> p < xp.nPorts && xp.ports[p] <= Pow2(DeviceBits(xp.nPorts))
  }

  lemma OwnedIdDecodes(m: Mesh, p: Place, id: nat)
    requires m.Valid() && m.Owns(p, id)
    ensures var d := Decode(m.Cb(), m.xps[(p.x, p.y)].nPorts, id);
            (d.0, d.1, d.2) == (p.x, p.y, p.port)
    ensures id - id % 8 == XyId(m.Cb(), p.x, p.y)
  {
    var xp := m.xps[(p.x, p.y)];
    assert InMesh(m.dimX, m.dimY, p.x, p.y) && Fits(xp) && p.port < xp.nPorts;
    CoordBitsFit(m.dimX, m.dimY);
    hide XyId, Pow2, DeviceBits, CoordBits, BaseId, IsValidId, Decode;
    ValidIdDecodes(m.Cb(), p, xp.nPorts, xp.ports[p.port], id);
  }

  lemma ValidIdDecodes(cb: nat, p: Place, nPorts: nat, cal: nat, id: nat)
    requires 2 <= cb <= 4 && p.x < Pow2(cb) && p.y < Pow2(cb) && p.port < nPorts <= 4
    requires IsValidId(BaseId(XyId(cb, p.x, p.y), nPorts, p.port), nPorts, cal, id)
    ensures var d := Decode(cb, nPorts, id);
            (d.0, d.1, d.2) == (p.x, p.y, p.port)
    ensures id - id % 8 == XyId(cb, p.x, p.y)
  {
    hide *;
    var xpId := XyId(cb, p.x, p.y);
    var device := id - BaseId(xpId, nPorts, p.port);
    XyFields(cb, p.x, p.y, 0);
    LowBits(xpId, nPorts, p.port, cal, id);
    DeviceSpan(nPorts);
    EncodableIs(cb, nPorts, p.x, p.y, p.port, device);
    DecodeEncode(cb, nPorts, p.x, p.y, p.port, device);
    EncodeBase(cb, nPorts, p.x, p.y, p.port, device);
  }

  lemma EncodeBase(cb: nat, nPorts: nat, x: nat, y: nat, port: nat, device: nat)
    ensures Encode(cb, nPorts, x, y, port, device) == BaseId(XyId(cb, x, y), nPorts, port) + device
  {
    hide BaseId, XyId;
  }

  lemma DeviceSpan(nPorts: nat)
    ensures Pow2(DeviceBits(nPorts)) == if nPorts > 2 then 2 else 4
  {
    SmallPowers();
  }

  /** An id that a port accepts differs from the XP's id in the three low bits only. */
  lemma LowBits(xpId: nat, nPorts: nat, port: nat, cal: nat, id: nat)
    requires xpId % 8 == 0 && port < nPorts <= 4
    requires IsValidId(BaseId(xpId, nPorts, port), nPorts, cal, id)
    ensures var device := id - BaseId(xpId, nPorts, port);
            0 <= device < Pow2(DeviceBits(nPorts)) && id - id % 8 == xpId
  {
    SmallPowers();
  }

  /** No id has two owners, whatever the mix of port counts and CALs in the mesh. */
  lemma OwnerIsUnique(m: Mesh, p: Place, q: Place, id: nat)
    requires m.Valid() && m.Owns(p, id) && m.Owns(q, id)
    ensures p == q
  {
    OwnedIdDecodes(m, p, id);
    OwnedIdDecodes(m, q, id);
  }

  /** Every id that a port announces is its own, so different ports announce different ids. */
  lemma PortsOwnTheirIds(m: Mesh, p: Place)
    requires m.Valid() && m.HasPort(p)
    ensures forall id :: id in m.Ids(p) ==> m.Owns(p, id)
    ensures forall q, id :: m.HasPort(q) && id in m.Ids(p) && m.Owns(q, id) ==> p == q
  {
    SmallPowers();
    var xp := m.xps[(p.x, p.y)];
    assert InMesh(m.dimX, m.dimY, p.x, p.y) && Fits(xp);
    XyFields(m.Cb(), p.x, p.y, 0);
    AnnouncedIdsAreValid(XyId(m.Cb(), p.x, p.y), xp.nPorts, p.port, xp.ports[p.port]);
    forall q, id | m.HasPort(q) && id in m.Ids(p) && m.Owns(q, id)
      ensures p == q
    {
      OwnerIsUnique(m, p, q, id);
    }
  }

  /** A port announces consecutive ids: one without a CAL, two with a CAL of one or two, else as many as the CAL has devices. */
  lemma AnnouncedIds(base: nat, cal: nat)
    requires cal <= 4
    ensures var ids := PortIds(base, cal);
            && |ids| == (if cal == 0 then 1 else if cal <= 2 then 2 else cal)
            && forall i :: 0 <= i < |ids| ==> ids[i] == base + i
  {
  }

  lemma IsValidIdIs(base: nat, nPorts: nat, cal: nat, id: nat)
    ensures IsValidId(base, nPorts, cal, id) <==>
            if cal == 0 then id == base else if nPorts > 2 then id - id % 2 == base else id - id % 4 == base
  {
    SmallPowers();
  }

  lemma AnnouncedIdsAreValid(xpId: nat, nPorts: nat, port: nat, cal: nat)
    requires xpId % 8 == 0 && cal <= Pow2(DeviceBits(nPorts))
    ensures var base := BaseId(xpId, nPorts, port);
            forall id :: id in PortIds(base, cal) ==> IsValidId(base, nPorts, cal, id)
  {
    var base := BaseId(xpId, nPorts, port);
    BaseIdIs(xpId, nPorts, port);
    CalIs(nPorts, cal);
    hide Pow2, DeviceBits, IsValidId, BaseId;
    forall id | id in PortIds(base, cal)
      ensures IsValidId(base, nPorts, cal, id)
    {
      IsValidIdIs(base, nPorts, cal, id);
      assert base <= id && id - base < (if cal == 0 then 1 else if cal <= 2 then 2 else 4);
      hide PortIds;
      RoundsDown(base, id);
    }
  }

  lemma BaseIdIs(xpId: nat, nPorts: nat, port: nat)
    requires xpId % 8 == 0
    ensures var base := BaseId(xpId, nPorts, port);
            base % 2 == 0 && (nPorts <= 2 ==> base % 4 == 0)
  {
    DeviceSpan(nPorts);
    hide Pow2;
    StillAligned(xpId / 8, port);
  }

  lemma StillAligned(q: nat, port: nat)
    ensures (8 * q + port * 2) % 2 == 0 && (8 * q + port * 4) % 4 == 0
  {
    assert 8 * q + port * 2 == 2 * (4 * q + port);
    assert 8 * q + port * 4 == 4 * (2 * q + port);
  }

  lemma CalIs(nPorts: nat, cal: nat)
    requires cal <= Pow2(DeviceBits(nPorts))
    ensures cal <= if nPorts > 2 then 2 else 4
  {
    SmallPowers();
  }

  lemma RoundsDown(base: nat, id: nat)
    requires base <= id
    ensures base % 2 == 0 && id - base < 2 ==> id - id % 2 == base
    ensures base % 4 == 0 && id - base < 4 ==> id - id % 4 == base
  {
    var d := id - base;
    if base % 2 == 0 && d < 2 {
      AboveEven(base / 2, d);
    }
    if base % 4 == 0 && d < 4 {
      AboveFourfold(base / 4, d);
    }
  }

  lemma AboveEven(h: nat, d: nat)
    requires d < 2
    ensures (2 * h + d) % 2 == d
  {
  }

  lemma AboveFourfold(h: nat, d: nat)
    requires d < 4
    ensures (4 * h + d) % 4 == d
  {
  }

  /** Look up an XP by its id: no other XP of the mesh has it. */
  function XpAtId(m: Mesh, xpId: nat): (r: Option<(nat, nat)>)
    requires m.Valid()
    ensures forall c :: r == Some(c) <==> c in m.xps && XyId(m.Cb(), c.0, c.1) == xpId
  {
    assert forall c :: c in m.xps && XyId(m.Cb(), c.0, c.1) == xpId ==> c == IdXy(m.Cb(), xpId) by {
      forall c | c in m.xps && XyId(m.Cb(), c.0, c.1) == xpId
        ensures c == IdXy(m.Cb(), xpId)
      {
        assert InMesh(m.dimX, m.dimY, c.0, c.1);
        DecodeXy(m.dimX, m.dimY, c.0, c.1);
      }
    }
    var c := IdXy(m.Cb(), xpId);
    if c in m.xps && XyId(m.Cb(), c.0, c.1) == xpId then Some(c) else None
  }

  /** Find the port which owns an id: the XP by masking the low bits, then a scan of its ports. */
  method PortAtId(m: Mesh, id: nat) returns (r: Option<Place>)
    requires m.Valid()
    ensures r.Some? ==> forall p :: m.Owns(p, id) <==> p == r.value
    ensures r.None? ==> forall p :: !m.Owns(p, id)
  {
    hide XyId, IdXy, IsValidId, BaseId, DeviceBits, CoordBits, Pow2;
    forall p | m.Owns(p, id)
      ensures XpAtId(m, id - id % 8) == Some((p.x, p.y))
    {
      OwnedIdDecodes(m, p, id);
      assert (p.x, p.y) in m.xps;
    }
    var found := XpAtId(m, id - id % 8);
    if found.None? {
      return None;
    }
    var (x, y) := found.value;
    var xp := m.xps[(x, y)];
    assert forall p :: m.Owns(p, id) ==> p == Place(x, y, p.port) && p.port < 4 by {
      assert Fits(xp);
    }
    for n := 0 to 4
      invariant forall p: nat :: p < n ==> !m.Owns(Place(x, y, p), id)
    {
      if n in xp.ports && IsValidId(BaseId(id - id % 8, xp.nPorts, n), xp.nPorts, xp.ports[n], id) {
        assert m.Owns(Place(x, y, n), id);
        forall p | m.Owns(p, id)
          ensures p == Place(x, y, n)
        {
          OwnerIsUnique(m, p, Place(x, y, n), id);
        }
        return Some(Place(x, y, n));
      }
    }
    return None;
  }
}
