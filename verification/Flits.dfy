/**
 Unpacking trace payloads: a little-endian integer cut into chunks of a fixed number of
 bits, oldest flit in the highest chunk.
 */
module Flits {
  import opened Arithmetic
  import opened Bits

  type Byte = b: nat | b < 256

  /** Later bytes are more significant. */
  function BytesAsInt(s: seq<Byte>): nat {
    if s == [] then 0 else s[0] + 256 * BytesAsInt(s[1..])
  }

  /** The n chunks of x, highest first. */
  function Chunks(x: nat, n: nat, size: nat): (c: seq<nat>)
    ensures |c| == n
  {
    if n == 0 then [] else [Field(x, (n - 1) * size, size)] + Chunks(x, n - 1, size)
  }

  /** Put chunks back together. */
  function Compose(chunks: seq<nat>, size: nat): nat {
    if chunks == [] then 0
    else chunks[0] * Pow2(size * (|chunks| - 1)) + Compose(chunks[1..], size)
  }

  /** The chunks of a payload: as many as fit into its bits. */
  method BytesAsChunks(payload: seq<Byte>, size: nat) returns (chunks: seq<nat>)
    requires size > 0
    ensures chunks == Chunks(BytesAsInt(payload), |payload| * 8 / size, size)
  {
    hide Field, BytesAsInt;
    var n := |payload| * 8 / size;
    var x := BytesAsInt(payload);
    chunks := [];
    for i := 0 to n
      invariant chunks + Chunks(x, n - i, size) == Chunks(x, n, size)
    {
      chunks := chunks + [Field(x, (n - i - 1) * size, size)];
    }
  }

  // ---------------------------------------------------------------- nothing is lost

  /** x modulo a product: the remainder by one factor, and the quotient's remainder by the other. */
  lemma ModProduct(x: nat, a: nat, b: nat)
    requires a > 0 && b > 0
    ensures a * b > 0 && x % (a * b) == (x / a % b) * a + x % a
    ensures x / (a * b) == x / a / b
  {
    var q, r := x / a, x % a;
    var q', r' := q / b, q % b;
    assert x == q * a + r && q == q' * b + r';
    assert (q' * b + r') * a == q' * (a * b) + r' * a;
    Multiples(r' + 1, b, a);
    assert r' * a + r < a * b;
    DivModUnique(x, a * b, q', r' * a + r);
  }

  /** The chunks of x make up x, apart from the bits above them. */
  lemma {:induction false} ComposeChunks(x: nat, n: nat, size: nat)
    ensures Compose(Chunks(x, n, size), size) == x % Pow2(size * n)
  {
    if n == 0 {
      assert Pow2(size * 0) == 1;
    } else {
      ComposeChunks(x, n - 1, size);
      var a, b := Pow2(size * (n - 1)), Pow2(size);
      ModProduct(x, a, b);
      Pow2Sum(size * (n - 1), size);
      assert size * (n - 1) + size == size * n;
      assert Chunks(x, n, size)[1..] == Chunks(x, n - 1, size);
    }
  }

  ghost predicate AllBelow(chunks: seq<nat>, bound: nat) {
    forall i :: 0 <= i < |chunks| ==> chunks[i] < bound
  }

  lemma PlaceBound(c: nat, r: nat, a: nat, b: nat)
    requires c < b && r < a
    ensures r + c * a < b * a
  {
    Multiples(c + 1, b, a);
    assert (c + 1) * a == c * a + a;
  }

  lemma {:induction false} ComposeBound(chunks: seq<nat>, size: nat)
    requires AllBelow(chunks, Pow2(size))
    ensures Compose(chunks, size) < Pow2(size * |chunks|)
  {
    hide Pow2;
    if chunks == [] {
      assert Pow2(size * 0) > 0;
    } else {
      var n := |chunks|;
      ComposeBound(chunks[1..], size);
      Pow2Sum(size, size * (n - 1));
      assert size + size * (n - 1) == size * n;
      PlaceBound(chunks[0], Compose(chunks[1..], size), Pow2(size * (n - 1)), Pow2(size));
    }
  }

  lemma AddMultiple(x: nat, k: nat, a: nat)
    requires a > 0
    ensures (x + k * a) / a == x / a + k && (x + k * a) % a == x % a
  {
    assert x + k * a == (x / a + k) * a + x % a;
    DivModUnique(x + k * a, a, x / a + k, x % a);
  }

  lemma DropHigh(x: nat, k: nat, a: nat, b: nat)
    requires a > 0 && b > 0
    ensures (x + k * (a * b)) / a % b == x / a % b
  {
    assert k * (a * b) == (k * b) * a;
    AddMultiple(x, k * b, a);
    AddMultiple(x / a, k, b);
  }

  lemma PickMiddle(low: nat, mid: nat, high: nat, a: nat, b: nat)
    requires low < a && mid < b
    ensures (low + a * (mid + b * high)) / a % b == mid
  {
    DivModUnique(low + a * (mid + b * high), a, mid + b * high, low);
    DivModUnique(mid + b * high, b, high, mid);
  }

  lemma FieldIgnoresHigh(x: nat, k: nat, p: nat, n: nat)
    ensures Field(x + k * Pow2(p + n), p, n) == Field(x, p, n)
  {
    hide Pow2;
    Pow2Sum(p, n);
    DropHigh(x, k, Pow2(p), Pow2(n));
  }

  /** A field that sits above p smaller bits and below anything. */
  lemma FieldAt(low: nat, mid: nat, high: nat, p: nat, n: nat)
    requires low < Pow2(p) && mid < Pow2(n)
    ensures Field(low + Pow2(p) * (mid + Pow2(n) * high), p, n) == mid
  {
    hide Pow2;
    PickMiddle(low, mid, high, Pow2(p), Pow2(n));
  }

  /** Bits above the n-th chunk do not matter. */
  lemma {:induction false} ChunksIgnoreHigh(x: nat, h: nat, n: nat, size: nat)
    ensures Chunks(x + h * Pow2(size * n), n, size) == Chunks(x, n, size)
    decreases n
  {
    hide Field, Pow2;
    if n > 0 {
      var p := (n - 1) * size;
      Pow2Sum(p, size);
      assert p + size == size * n;
      FieldIgnoresHigh(x, h, p, size);
      assert h * Pow2(size * n) == (h * Pow2(size)) * Pow2(size * (n - 1)) by {
        assert Pow2(size * n) == Pow2(p) * Pow2(size);
      }
      ChunksIgnoreHigh(x, h * Pow2(size), n - 1, size);
    }
  }

  /** Cutting up what was put together gives the chunks back, in order. */
  lemma {:induction false} ChunksCompose(chunks: seq<nat>, size: nat)
    requires AllBelow(chunks, Pow2(size))
    ensures Chunks(Compose(chunks, size), |chunks|, size) == chunks
  {
    hide Field, Pow2;
    if chunks != [] {
      var n, rest := |chunks|, chunks[1..];
      var low, p := Compose(rest, size), (n - 1) * size;
      var x := low + chunks[0] * Pow2(p);
      ChunksCompose(rest, size);
      ComposeBound(rest, size);
      Commute(size, n - 1);
      assert |rest| == n - 1 && size * |rest| == p;
      ChunksIgnoreHigh(low, chunks[0], n - 1, size);
      assert chunks[0] < Pow2(size);
      FieldAt(low, chunks[0], 0, p, size);
      Commute(Pow2(p), chunks[0]);
      assert Compose(chunks, size) == x;
      assert Chunks(x, n, size) == [Field(x, p, size)] + Chunks(x, n - 1, size);
      hide *;
      assert chunks == [chunks[0]] + rest;
    }
  }

  lemma Commute(a: int, b: int)
    ensures a * b == b * a && a * (b + 0) == b * a
  {
  }

  // ---------------------------------------------------------------- flits of formats 0, 1 and 2

  datatype Flit = Flit(txnid: nat, opcode: nat, srcid: nat, tgtid: nat)

  /** Field widths by product: CMN-600, CMN-650, CMN-700, CMN S3 from r2 on. */
  type Product = b: nat | b < 4

  function TxnidBits(b: Product): nat {
    [8, 10, 12, 12][b]
  }

  function OpcodeBits(b: Product): nat {
    [6, 6, 7, 7][b]
  }

  type Format = f: nat | f < 3

  /** Size of one flit in a payload. */
  function ChunkBits(f: Format, b: Product): nat {
    if f == 0 then TxnidBits(b) else if f == 1 then [16, 16, 19, 19][b] else [36, 40, 44, 44][b]
  }

  /** The products' field widths, and the padding of their chunks: formats 0 and 1 to what the trace has, format 2 to four bits. */
  lemma Widths(f: Format, b: Product)
    ensures (TxnidBits(b), OpcodeBits(b)) == if b == 0 then (8, 6) else if b == 1 then (10, 6) else (12, 7)
    ensures var fields := if f == 0 then TxnidBits(b) else if f == 1 then TxnidBits(b) + OpcodeBits(b) else TxnidBits(b) + OpcodeBits(b) + 22;
            && fields <= ChunkBits(f, b) && (f == 0 ==> ChunkBits(f, b) == fields)
            && (f == 1 ==> ChunkBits(f, b) == if b == 0 then 16 else fields)
            && (f == 2 ==> ChunkBits(f, b) % 4 == 0 && ChunkBits(f, b) - fields < 4)
  {
  }

  /** The flit in one chunk.  Fields that a format does not carry read as 0. */
  function FlitOf(f: Format, b: Product, chunk: nat): Flit {
    var tb, ob := TxnidBits(b), OpcodeBits(b);
    if f == 0 then Flit(chunk, 0, 0, 0)
    else if f == 1 then Flit(Field(chunk, 0, tb), Field(chunk, tb, ob), 0, 0)
    else Flit(Field(chunk, 0, tb), Field(chunk, tb, ob), Field(chunk, tb + ob, 11), Field(chunk, tb + ob + 11, 11))
  }

  /** The chunk that carries a flit. */
  function ChunkOf(b: Product, flit: Flit): nat {
    flit.txnid + Pow2(TxnidBits(b)) * (flit.opcode + Pow2(OpcodeBits(b)) * (flit.srcid + Pow2(11) * flit.tgtid))
  }

  predicate Carries(f: Format, b: Product, flit: Flit) {
    flit.txnid < Pow2(TxnidBits(b)) && flit.opcode < Pow2(OpcodeBits(b)) && flit.srcid < Pow2(11) && flit.tgtid < Pow2(11) &&
    (f < 1 ==> flit.opcode == 0) && (f < 2 ==> flit.srcid == 0 && flit.tgtid == 0)
  }

  lemma {:induction false} Pow2Grows(m: nat, n: nat)
    requires m <= n
    ensures Pow2(m) <= Pow2(n)
  {
    if m < n {
      Pow2Grows(m, n - 1);
    }
  }

  /** Two adjacent fields are one wider field. */
  lemma JoinAdjacent(low: nat, next: nat, m: nat, n: nat)
    requires low < Pow2(m) && next < Pow2(n)
    ensures low + Pow2(m) * next < Pow2(m + n)
    ensures forall rest: nat {:trigger Pow2(m + n) * rest} ::
              low + Pow2(m) * (next + Pow2(n) * rest) == (low + Pow2(m) * next) + Pow2(m + n) * rest
  {
    hide Pow2;
    Pow2Sum(m, n);
    PlaceBound(next, low, Pow2(m), Pow2(n));
    forall rest: nat
      ensures low + Pow2(m) * (next + Pow2(n) * rest) == (low + Pow2(m) * next) + Pow2(m + n) * rest
    {
      assert Pow2(m) * (next + Pow2(n) * rest) == Pow2(m) * next + (Pow2(m) * Pow2(n)) * rest;
    }
  }

  /** No field of a flit overlaps another, and the flit fits into its chunk. */
  lemma FlitOfChunkOf(f: Format, b: Product, flit: Flit)
    requires Carries(f, b, flit)
    ensures FlitOf(f, b, ChunkOf(b, flit)) == flit
    ensures ChunkOf(b, flit) < Pow2(ChunkBits(f, b))
  {
    hide Pow2, Field;
    var tb, ob := TxnidBits(b), OpcodeBits(b);
    var (t, o, s, g) := (flit.txnid, flit.opcode, flit.srcid, flit.tgtid);
    var chunk := ChunkOf(b, flit);
    assert Pow2(0) == 1 by {
      SmallestPower();
    }
    FieldAt(0, t, o + Pow2(ob) * (s + Pow2(11) * g), 0, tb);
    assert Pow2(0) * chunk == chunk;
    FieldAt(t, o, s + Pow2(11) * g, tb, ob);
    JoinAdjacent(t, o, tb, ob);
    var to := t + Pow2(tb) * o;
    assert chunk == to + Pow2(tb + ob) * (s + Pow2(11) * g);
    FieldAt(to, s, g, tb + ob, 11);
    JoinAdjacent(to, s, tb + ob, 11);
    var tos := to + Pow2(tb + ob) * s;
    assert chunk == tos + Pow2(tb + ob + 11) * g;
    assert Pow2(11) * 0 == 0 && g + Pow2(11) * 0 == g;
    FieldAt(tos, g, 0, tb + ob + 11, 11);
    JoinAdjacent(tos, g, tb + ob + 11, 11);
    ChunkFits(f, b, flit, to, chunk);
  }

  lemma SmallestPower()
    ensures Pow2(0) == 1
  {
  }

  lemma ChunkFits(f: Format, b: Product, flit: Flit, to: nat, chunk: nat)
    requires Carries(f, b, flit)
    requires to == flit.txnid + Pow2(TxnidBits(b)) * flit.opcode && to < Pow2(TxnidBits(b) + OpcodeBits(b))
    requires chunk == to + Pow2(TxnidBits(b) + OpcodeBits(b)) * (flit.srcid + Pow2(11) * flit.tgtid)
    requires chunk < Pow2(TxnidBits(b) + OpcodeBits(b) + 11 + 11)
    ensures chunk < Pow2(ChunkBits(f, b))
  {
    hide Pow2;
    if f == 0 {
      assert chunk == flit.txnid;
    } else if f == 1 {
      assert chunk == to;
      Pow2Grows(TxnidBits(b) + OpcodeBits(b), ChunkBits(f, b));
    } else {
      Pow2Grows(TxnidBits(b) + OpcodeBits(b) + 11 + 11, ChunkBits(f, b));
    }
  }

  function FlitsOf(f: Format, b: Product, chunks: seq<nat>): seq<Flit> {
    seq(|chunks|, i requires 0 <= i < |chunks| => FlitOf(f, b, chunks[i]))
  }

  function ChunksOf(b: Product, flits: seq<Flit>): seq<nat> {
    seq(|flits|, i requires 0 <= i < |flits| => ChunkOf(b, flits[i]))
  }

  /** What decoding a payload means. */
  function Decoded(f: Format, b: Product, payload: seq<Byte>): seq<Flit> {
    FlitsOf(f, b, Chunks(BytesAsInt(payload), |payload| * 8 / ChunkBits(f, b), ChunkBits(f, b)))
  }

  class FlitGroup {
    const format: Format
    const product: Product
    var flits: seq<Flit>

    constructor (format: Format, product: Product)
      ensures this.format == format && this.product == product && flits == []
    {
      this.format, this.product, flits := format, product, [];
    }

    method AddFlit(flit: Flit)
      modifies this`flits
      ensures flits == old(flits) + [flit]
    {
      flits := flits + [flit];
    }

    /** A group decodes one payload only. */
    method Decode(payload: seq<Byte>)
      requires flits == []
      modifies this`flits
      ensures flits == Decoded(format, product, payload)
    {
      hide FlitOf, Chunks;
      var chunks := BytesAsChunks(payload, ChunkBits(format, product));
      for i := 0 to |chunks|
        invariant flits == FlitsOf(format, product, chunks[..i])
      {
        AddFlit(FlitOf(format, product, chunks[i]));
      }
      assert chunks[..|chunks|] == chunks;
    }
  }

  // ---------------------------------------------------------------- round trip through a payload

  /** The l low bytes of x. */
  function ToBytes(x: nat, l: nat): (s: seq<Byte>)
    ensures |s| == l
  {
    if l == 0 then [] else [x % 256] + ToBytes(x / 256, l - 1)
  }

  lemma {:induction false} BytesAsIntToBytes(x: nat, l: nat)
    ensures BytesAsInt(ToBytes(x, l)) == x % Pow2(8 * l)
    decreases l
  {
    if l > 0 {
      BytesAsIntToBytes(x / 256, l - 1);
      assert ToBytes(x, l)[1..] == ToBytes(x / 256, l - 1);
      assert Pow2(8) == 256 by {
        EighthPower();
      }
      Pow2Sum(8, 8 * (l - 1));
      ModProduct(x, 256, Pow2(8 * (l - 1)));
    } else {
      assert Pow2(8 * 0) == 1;
    }
  }

  lemma EighthPower()
    ensures Pow2(8) == 256
  {
    assert Pow2(4) == 16;
    Pow2Sum(4, 4);
  }

  /** Flits packed into a payload of any length that holds exactly as many decode to themselves, in order. */
  lemma DecodePacked(f: Format, b: Product, flits: seq<Flit>, l: nat)
    requires l * 8 / ChunkBits(f, b) == |flits|
    requires forall i :: 0 <= i < |flits| ==> Carries(f, b, flits[i])
    ensures var x := Compose(ChunksOf(b, flits), ChunkBits(f, b));
            Decoded(f, b, ToBytes(x, l)) == flits
  {
    hide Pow2, Carries, FlitOf, ChunkOf, Chunks, Compose, ToBytes, BytesAsInt;
    var size, chunks := ChunkBits(f, b), ChunksOf(b, flits);
    var x := Compose(chunks, size);
    forall i | 0 <= i < |flits|
      ensures chunks[i] < Pow2(size) && FlitOf(f, b, chunks[i]) == flits[i]
    {
      FlitOfChunkOf(f, b, flits[i]);
    }
    ComposeBound(chunks, size);
    WholeChunksFit(8 * l, size);
    Pow2Grows(size * |flits|, 8 * l);
    BytesAsIntToBytes(x, l);
    SmallMod(x, Pow2(8 * l));
    ChunksCompose(chunks, size);
  }

  lemma WholeChunksFit(bits: nat, size: nat)
    requires size > 0
    ensures size * (bits / size) <= bits
  {
  }

  lemma SmallMod(x: nat, m: nat)
    requires x < m
    ensures x % m == x
  {
  }

  /** Decoding loses nothing but the bits above the last whole chunk. */
  lemma ChunksOfPayload(payload: seq<Byte>, size: nat)
    requires size > 0
    ensures var n := |payload| * 8 / size;
            Compose(Chunks(BytesAsInt(payload), n, size), size) == BytesAsInt(payload) % Pow2(size * n)
  {
    ComposeChunks(BytesAsInt(payload), |payload| * 8 / size, size);
  }
}
