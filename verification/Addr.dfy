/** Global addresses, the remote pool they point into and the tag arithmetic
    that maps an interior address to the base of its object. */
module Addr {
  import opened Bits

  /** What the memory server tells at the handshake (the RDMA key is not modelled). */
  datatype MemInfo = MemInfo(addr: nat, pageSize: nat, pageCount: nat)

  function UpperBound(m: MemInfo): nat {
    m.addr + m.pageSize * m.pageCount
  }

  /** A pool the runtime can work on: power-of-two pages, a page-aligned start
      that is not page zero, and an end that the 56 bits of an address reach. */
  ghost predicate PoolOk(m: MemInfo) {
    && IsPowerOfTwo(m.pageSize)
    && 0 < m.pageSize <= m.addr
    && m.addr % m.pageSize == 0
    && UpperBound(m) <= TWO_56
  }

  /** `global_addr_t`: an 8-bit type id and a 56-bit offset in one 64-bit word. */
  datatype GAddr = GAddr(typeId: nat, offset: nat)

  const GADDR_NULL := GAddr(0, 0)

  predicate Representable(g: GAddr) {
    g.typeId < 256 && g.offset < TWO_56
  }

  function Pack(g: GAddr): (v: nat)
    requires Representable(g)
    ensures v < TWO_64
  {
    g.typeId + 256 * g.offset
  }

  function Unpack(v: nat): (g: GAddr)
    requires v < TWO_64
    ensures Representable(g)
  {
    GAddr(v % 256, v / 256)
  }

  /** The packed word determines the address, so the table's keys are
      injective in (type, offset), and only the null address packs to 0. */
  lemma UnpackPack(g: GAddr)
    requires Representable(g)
    ensures Unpack(Pack(g)) == g
    ensures Pack(g) == 0 <==> g == GADDR_NULL
  {
    var v := Pack(g);
    assert v / 256 == g.offset && v % 256 == g.typeId;
    if v == 0 {
      assert g.offset == 0 && g.typeId == 0;
    }
  }

  /** Every 64-bit word is the packing of an address. */
  lemma PackUnpack(v: nat)
    requires v < TWO_64
    ensures Pack(Unpack(v)) == v
  {
    var g := Unpack(v);
    assert v == 256 * g.offset + g.typeId;
  }

  function RoundDown(x: nat, s: nat): (r: nat)
    requires s > 0
    ensures r <= x < r + s
  {
    DivBounds(x, s);
    x / s * s
  }

  /** `extract_tag`, masks and all. */
  function ExtractTag(pageSize: nat, typeSize: nat, offset: nat): (tag: nat)
    requires 0 < pageSize < TWO_64 && typeSize > 0 && offset < TWO_64
  {
    And(offset, Not64(pageSize - 1)) + RoundDown(And(offset, pageSize - 1), typeSize)
  }

  /** Base of the object that an address would belong to, among objects of a size. */
  function BaseIn(pageSize: nat, typeSize: nat, g: GAddr): GAddr
    requires 0 < pageSize < TWO_64 && typeSize > 0 && g.offset < TWO_64
  {
    GAddr(g.typeId, ExtractTag(pageSize, typeSize, g.offset))
  }

  /** Page start of an address, and the stride cell it lies in. */
  function PageStart(p: nat, x: nat): nat
    requires p > 0
  {
    x - x % p
  }

  function Cell(p: nat, s: nat, x: nat): nat
    requires p > 0 && s > 0
  {
    x % p / s
  }

  lemma TagIsCellStart(p: nat, s: nat, x: nat)
    requires IsPowerOfTwo(p) && 0 < p < TWO_64 && s > 0 && x < TWO_64
    ensures ExtractTag(p, s, x) == PageStart(p, x) + Cell(p, s, x) * s
    ensures Cell(p, s, x) * s <= x % p < (Cell(p, s, x) + 1) * s
  {
    PageMasks(x, p);
    DivBounds(x % p, s);
  }

  /** offset = tag + slot_off with the slot offset inside the object. */
  lemma TagDecomposition(p: nat, s: nat, x: nat)
    requires IsPowerOfTwo(p) && 0 < p < TWO_64 && s > 0 && x < TWO_64
    ensures ExtractTag(p, s, x) <= x < ExtractTag(p, s, x) + s
  {
    TagIsCellStart(p, s, x);
    var c := Cell(p, s, x);
    assert (c + 1) * s == c * s + s;
  }

  /** An offset built from a page start and an in-page rest has just these parts. */
  lemma PageParts(p: nat, start: nat, r: nat)
    requires p > 0 && start % p == 0 && r < p
    ensures PageStart(p, start + r) == start
    ensures (start + r) % p == r
  {
    assert start == p * (start / p);
    DivModUnique(start + r, p, start / p, r);
  }

  lemma PageStartAligned(p: nat, x: nat)
    requires p > 0
    ensures PageStart(p, x) % p == 0
  {
    assert x == p * (x / p) + x % p;
    DivModUnique(x - x % p, p, x / p, 0);
  }

  lemma TagIdempotent(p: nat, s: nat, x: nat)
    requires IsPowerOfTwo(p) && 0 < p < TWO_64 && s > 0 && x < TWO_64
    ensures ExtractTag(p, s, x) < TWO_64
    ensures ExtractTag(p, s, ExtractTag(p, s, x)) == ExtractTag(p, s, x)
  {
    hide ExtractTag;
    TagDecomposition(p, s, x);
    TagIsCellStart(p, s, x);
    CellOfTag(p, s, x);
    TagIsCellStart(p, s, ExtractTag(p, s, x));
  }

  /** Two offsets share a tag if and only if they lie in the same stride cell
      of the same page. */
  lemma SameTagIffSameCell(p: nat, s: nat, x: nat, y: nat)
    requires IsPowerOfTwo(p) && 0 < p < TWO_64 && s > 0 && x < TWO_64 && y < TWO_64
    ensures ExtractTag(p, s, x) == ExtractTag(p, s, y)
       <==> PageStart(p, x) == PageStart(p, y) && Cell(p, s, x) == Cell(p, s, y)
  {
    hide ExtractTag;
    TagIsCellStart(p, s, x);
    TagIsCellStart(p, s, y);
    if ExtractTag(p, s, x) == ExtractTag(p, s, y) {
      CellOfTag(p, s, x);
      CellOfTag(p, s, y);
    }
  }

  /** Page and cell can be read off the tag. */
  lemma CellOfTag(p: nat, s: nat, x: nat)
    requires IsPowerOfTwo(p) && 0 < p < TWO_64 && s > 0 && x < TWO_64
    ensures PageStart(p, ExtractTag(p, s, x)) == PageStart(p, x)
    ensures Cell(p, s, ExtractTag(p, s, x)) == Cell(p, s, x)
  {
    hide ExtractTag;
    TagIsCellStart(p, s, x);
    var c := Cell(p, s, x);
    PageStartAligned(p, x);
    PageParts(p, PageStart(p, x), c * s);
    DivModUnique(c * s, s, c, 0);
  }

  /** Of an object at a stride cell of its page (the first cell, for the
      objects this allocator hands out), the tag of every interior address is the base. */
  lemma TagOfInterior(p: nat, s: nat, start: nat, c: nat, x: nat)
    requires IsPowerOfTwo(p) && 0 < p < TWO_64 && s > 0 && x < TWO_64
    requires start % p == 0 && c * s + s <= p
    requires start + c * s <= x < start + c * s + s
    ensures ExtractTag(p, s, x) == start + c * s
  {
    PageParts(p, start, x - start);
    var r := x - start;
    assert s * c == c * s;
    DivModUnique(r, s, c, r - c * s);
    assert Cell(p, s, x) == c;
    TagIsCellStart(p, s, x);
  }
}
