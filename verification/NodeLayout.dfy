/** The tree node as bytes: a 32-bit key at 0 and two packed global addresses at
    8 and 16, all little-endian. */
module NodeLayout {
  import opened Bits
  import opened Addr
  import opened CacheSpec

  const NODE_SIZE: nat := 24
  const KEY_AT: nat := 0
  const LEFT_AT: nat := 8
  const RIGHT_AT: nat := 16

  type int32 = x: int | -0x8000_0000 <= x < 0x8000_0000

  /** The number of values that n bytes have. */
  function Width(n: nat): (w: nat)
    ensures w > 0
  {
    if n == 0 then 1 else 256 * Width(n - 1)
  }

  function ToBytes(x: nat, n: nat): (bs: seq<byte>)
    ensures |bs| == n
  {
    if n == 0 then [] else [x % 256] + ToBytes(x / 256, n - 1)
  }

  function FromBytes(bs: seq<byte>): nat {
    if bs == [] then 0 else bs[0] + 256 * FromBytes(bs[1..])
  }

  /** What is stored is what is loaded... */
  lemma {:induction false} LoadStored(x: nat, n: nat)
    requires x < Width(n)
    ensures FromBytes(ToBytes(x, n)) == x
  {
    if n > 0 {
      LoadStored(x / 256, n - 1);
      assert ToBytes(x, n)[1..] == ToBytes(x / 256, n - 1);
    }
  }

  /** ...and storing what was loaded changes no byte. */
  lemma {:induction false} StoreLoaded(bs: seq<byte>)
    ensures FromBytes(bs) < Width(|bs|)
    ensures ToBytes(FromBytes(bs), |bs|) == bs
  {
    if bs != [] {
      StoreLoaded(bs[1..]);
      var rest := FromBytes(bs[1..]);
      assert (bs[0] + 256 * rest) / 256 == rest && (bs[0] + 256 * rest) % 256 == bs[0];
    }
  }

  lemma Widths()
    ensures Width(4) == TWO_32 && Width(8) == TWO_64
  {
  }

  /** `int` in two's complement. */
  function KeyBytes(key: int32): (bs: seq<byte>)
    ensures |bs| == 4
  {
    ToBytes(if key < 0 then key + TWO_32 else key, 4)
  }

  function KeyFrom(bs: seq<byte>): int32
    requires |bs| == 4
  {
    StoreLoaded(bs);
    Widths();
    var w := FromBytes(bs);
    if w < 0x8000_0000 then w else w - TWO_32
  }

  function LinkBytes(g: GAddr): (bs: seq<byte>)
    requires Representable(g)
    ensures |bs| == 8
  {
    ToBytes(Pack(g), 8)
  }

  function LinkFrom(bs: seq<byte>): (g: GAddr)
    requires |bs| == 8
    ensures Representable(g)
  {
    StoreLoaded(bs);
    Widths();
    Unpack(FromBytes(bs))
  }

  lemma KeyRoundTrip(key: int32, bs: seq<byte>)
    requires |bs| == 4
    ensures KeyFrom(KeyBytes(key)) == key
    ensures KeyBytes(KeyFrom(bs)) == bs
  {
    Widths();
    LoadStored(if key < 0 then key + TWO_32 else key, 4);
    StoreLoaded(bs);
  }

  lemma LinkRoundTrip(g: GAddr, bs: seq<byte>)
    requires Representable(g) && |bs| == 8
    ensures LinkFrom(LinkBytes(g)) == g
    ensures LinkBytes(LinkFrom(bs)) == bs
  {
    Widths();
    LoadStored(Pack(g), 8);
    UnpackPack(g);
    StoreLoaded(bs);
    PackUnpack(FromBytes(bs));
  }

  // The fields of a node

  predicate IsLink(at: nat) {
    at == LEFT_AT || at == RIGHT_AT
  }

  function KeyOf(node: seq<byte>): int32
    requires |node| == NODE_SIZE
  {
    KeyFrom(Slice(node, KEY_AT, 4))
  }

  function LinkOf(node: seq<byte>, at: nat): (g: GAddr)
    requires |node| == NODE_SIZE && IsLink(at)
    ensures Representable(g)
  {
    LinkFrom(Slice(node, at, 8))
  }

  // The bytes, one by one

  /** Bytes 0 to 3 are the key in two's complement, low byte first. */
  predicate HasKey(node: seq<byte>, key: int32) {
    var w := if key < 0 then key + 0x1_0000_0000 else key;
    && |node| == 24
    && node[0] == w % 256 && node[1] == w / 256 % 256
    && node[2] == w / 0x1_0000 % 256 && node[3] == w / 0x100_0000 % 256
  }

  /** The byte at a place is the type id of an address, the next seven are its
      offset, low byte first. */
  predicate HasLink(node: seq<byte>, at: nat, g: GAddr) {
    && |node| == 24 && at + 8 <= 24
    && node[at] == g.typeId
    && node[at + 1] == g.offset % 256 && node[at + 2] == g.offset / 256 % 256
    && node[at + 3] == g.offset / 0x1_0000 % 256 && node[at + 4] == g.offset / 0x100_0000 % 256
    && node[at + 5] == g.offset / 0x1_0000_0000 % 256 && node[at + 6] == g.offset / 0x100_0000_0000 % 256
    && node[at + 7] == g.offset / 0x1_0000_0000_0000 % 256
  }

  /** Four digits to the base 256, and what is left. */
  lemma Digits(x: nat, n: nat)
    ensures ToBytes(x, n + 4)
         == [x % 256, x / 256 % 256, x / 0x1_0000 % 256, x / 0x100_0000 % 256] + ToBytes(x / 0x1_0000_0000, n)
  {
    var x1 := x / 256;
    var x2 := x1 / 256;
    var x3 := x2 / 256;
    Quotients(x);
    assert ToBytes(x3, n + 1) == [x3 % 256] + ToBytes(x3 / 256, n);
    assert ToBytes(x2, n + 2) == [x2 % 256, x3 % 256] + ToBytes(x3 / 256, n);
    assert ToBytes(x1, n + 3) == [x1 % 256, x2 % 256, x3 % 256] + ToBytes(x3 / 256, n);
  }

  lemma Quotients(x: nat)
    ensures x / 256 / 256 == x / 0x1_0000 && x / 0x1_0000 / 256 == x / 0x100_0000
    ensures x / 0x100_0000 / 256 == x / 0x1_0000_0000
  {
  }

  lemma KeyDigits(key: int32)
    ensures var w := if key < 0 then key + 0x1_0000_0000 else key;
      KeyBytes(key) == [w % 256, w / 256 % 256, w / 0x1_0000 % 256, w / 0x100_0000 % 256]
  {
    var w: nat := if key < 0 then key + 0x1_0000_0000 else key;
    Digits(w, 0);
  }

  lemma LinkDigits(g: GAddr)
    requires Representable(g)
    ensures var o := g.offset;
      LinkBytes(g) == [g.typeId, o % 256, o / 256 % 256, o / 0x1_0000 % 256, o / 0x100_0000 % 256,
                       o / 0x1_0000_0000 % 256, o / 0x100_0000_0000 % 256, o / 0x1_0000_0000_0000 % 256]
  {
    hide ToBytes;
    var x, o := Pack(g), g.offset;
    assert x / 256 == o && x % 256 == g.typeId;
    assert ToBytes(x, 8) == [g.typeId] + ToBytes(o, 7) by { FirstByte(x, 7); }
    Digits(o, 3);
    var r := o / 0x1_0000_0000;
    FirstByte(r, 2);
    FirstByte(r / 256, 1);
    FirstByte(r / 256 / 256, 0);
    Quotients(r);
    assert r / 256 == o / 0x100_0000_0000 && r / 0x1_0000 == o / 0x1_0000_0000_0000;
  }

  lemma FirstByte(x: nat, n: nat)
    ensures ToBytes(x, n + 1) == [x % 256] + ToBytes(x / 256, n)
    ensures ToBytes(x, 0) == []
  {
  }

  /** A key, and nothing but zeros in the links. */
  predicate HasKeyOnly(node: seq<byte>, key: int32) {
    HasKey(node, key) && forall i :: 8 <= i < 24 ==> node[i] == 0
  }

  lemma EightBytes(node: seq<byte>, at: nat)
    requires at + 8 <= |node|
    ensures node[at..at + 8] == [node[at], node[at + 1], node[at + 2], node[at + 3],
                                 node[at + 4], node[at + 5], node[at + 6], node[at + 7]]
  {
  }

  /** A node is 24 bytes, and what is read as its key and links are the integer at
      bytes 0 to 3 and the addresses at bytes 8 to 15 and 16 to 23. */
  lemma NodeBytes(node: seq<byte>, key: int32, g: GAddr)
    requires |node| == 24 && Representable(g)
    ensures |node| == NODE_SIZE
    ensures KeyOf(node) == key <==> HasKey(node, key)
    ensures LinkOf(node, LEFT_AT) == g <==> HasLink(node, 8, g)
    ensures LinkOf(node, RIGHT_AT) == g <==> HasLink(node, 16, g)
  {
    hide KeyBytes, KeyFrom, LinkBytes, LinkFrom;
    KeyDigits(key);
    LinkDigits(g);
    KeyRoundTrip(key, node[0..4]);
    assert node[0..4] == [node[0], node[1], node[2], node[3]];
    LinkRoundTrip(g, node[8..16]);
    EightBytes(node, 8);
    LinkRoundTrip(g, node[16..24]);
    EightBytes(node, 16);
  }

  /** A key is stored into bytes 0 to 3 and no others. */
  lemma KeyStored(node: seq<byte>, key: int32)
    requires |node| == NODE_SIZE
    ensures var node' := Splice(node, KEY_AT, KeyBytes(key));
      && HasKey(node', key) && node'[4..] == node[4..]
      && KeyOf(node') == key
      && LinkOf(node', LEFT_AT) == LinkOf(node, LEFT_AT) && LinkOf(node', RIGHT_AT) == LinkOf(node, RIGHT_AT)
  {
    hide KeyFrom, KeyBytes, LinkFrom, Slice, Splice;
    KeyRoundTrip(key, KeyBytes(key));
    NodeBytes(Splice(node, KEY_AT, KeyBytes(key)), key, GADDR_NULL);
    SpliceEnds(node, KEY_AT, KeyBytes(key));
    SpliceSlices(node, KEY_AT, KeyBytes(key), KEY_AT, 4);
    SpliceSlices(node, KEY_AT, KeyBytes(key), LEFT_AT, 8);
    SpliceSlices(node, KEY_AT, KeyBytes(key), RIGHT_AT, 8);
  }

  lemma SpliceEnds(r: seq<byte>, at: nat, bs: seq<byte>)
    requires at + |bs| <= |r|
    ensures Splice(r, at, bs)[..at] == r[..at] && Splice(r, at, bs)[at + |bs|..] == r[at + |bs|..]
  {
  }

  /** A link is stored into its eight bytes and no others; storing the value that is
      there already changes nothing. */
  lemma LinkStored(node: seq<byte>, at: nat, g: GAddr)
    requires |node| == NODE_SIZE && IsLink(at) && Representable(g)
    ensures var node' := Splice(node, at, LinkBytes(g));
      && (at == 8 || at == 16) && HasLink(node', at, g)
      && node'[..at] == node[..at] && node'[at + 8..] == node[at + 8..]
      && LinkOf(node', at) == g && KeyOf(node') == KeyOf(node)
      && (forall other :: IsLink(other) && other != at ==> LinkOf(node', other) == LinkOf(node, other))
      && (LinkOf(node, at) == g ==> node' == node)
  {
    hide KeyFrom, LinkBytes, LinkFrom, Slice, Splice;
    SliceLength(node, at, 8);
    LinkRoundTrip(g, Slice(node, at, 8));
    NodeBytes(Splice(node, at, LinkBytes(g)), 0, g);
    SpliceEnds(node, at, LinkBytes(g));
    SpliceSlices(node, at, LinkBytes(g), at, 8);
    SpliceSlices(node, at, LinkBytes(g), KEY_AT, 4);
    SpliceSlices(node, at, LinkBytes(g), LEFT_AT, 8);
    SpliceSlices(node, at, LinkBytes(g), RIGHT_AT, 8);
  }

  /** The same link stored on both sides. */
  lemma BothLinksStored(node: seq<byte>, g: GAddr)
    requires |node| == NODE_SIZE && Representable(g)
    ensures var b := Splice(node, RIGHT_AT, LinkBytes(g));
      |b| == NODE_SIZE &&
      var node' := Splice(b, LEFT_AT, LinkBytes(g));
      |node'| == NODE_SIZE
      && KeyOf(node') == KeyOf(node) && LinkOf(node', LEFT_AT) == g && LinkOf(node', RIGHT_AT) == g
  {
    hide Splice, KeyOf, LinkOf, LinkBytes;
    LinkStored(node, RIGHT_AT, g);
    LinkStored(Splice(node, RIGHT_AT, LinkBytes(g)), LEFT_AT, g);
  }

  lemma SliceLength(r: seq<byte>, at: nat, n: nat)
    requires at + n <= |r|
    ensures |Slice(r, at, n)| == n
  {
  }
}
