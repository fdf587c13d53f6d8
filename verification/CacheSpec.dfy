/** What the cache does, on values: the slots and free list of every type, the
    translation table they share, remote memory, and the invariant that keeps
    them in agreement. */
module CacheSpec {
  import opened Bits
  import opened Addr
  import opened Alloc
  import opened SlotWord

  const SLOT_COUNT: nat := 256
  const RESERVED_TYPES: nat := 3
  const MAX_TYPES: nat := 255

  /** `cache_slot_metadata`. */
  datatype Slot = Slot(tag: nat, dirty: bool, word: Word)

  /** The cache of one type: `data[i]` are the bytes of slot i. */
  datatype Block = Block(size: nat, meta: seq<Slot>, data: seq<seq<byte>>, free: seq<int>)

  /** The compute context. `objs`, the addresses of the objects allocated so far,
      is history. */
  datatype State = State(mem: MemInfo, blocks: seq<Block>, table: map<GAddr, int>,
                         remote: seq<byte>, alloc: AllocState, objs: set<GAddr>)

  /** `struct cache_token`, and what `cache_request` gives back for nothing. */
  datatype Token = Token(tag: nat, typeId: nat, slotIndex: int, slotOff: int)

  const TOKEN_NULL := Token(0, 0, 0, 0)

  predicate IsNull(t: Token) {
    t.tag == 0 && t.typeId == 0
  }

  predicate HasBlock(s: State, t: int) {
    RESERVED_TYPES <= t < |s.blocks|
  }

  predicate BlockShape(b: Block) {
    && b.size > 0 && |b.meta| == SLOT_COUNT && |b.data| == SLOT_COUNT
    && forall i :: 0 <= i < SLOT_COUNT ==> |b.data[i]| == b.size
  }

  ghost predicate ShapeOk(s: State) {
    && PoolOk(s.mem)
    && RESERVED_TYPES <= |s.blocks| <= MAX_TYPES
    && |s.alloc.chunks| == |s.blocks|
    && |s.remote| == UpperBound(s.mem) - s.mem.addr
    && forall t :: HasBlock(s, t) ==> BlockShape(s.blocks[t])
  }

  lemma BlockOf(s: State, t: nat)
    requires ShapeOk(s) && HasBlock(s, t)
    ensures BlockShape(s.blocks[t])
  {
  }

  predicate IsSlot(s: State, t: int, i: int) {
    HasBlock(s, t) && |s.blocks[t].meta| == SLOT_COUNT && |s.blocks[t].data| == SLOT_COUNT && 0 <= i < SLOT_COUNT
  }

  function SlotAt(s: State, t: int, i: int): Slot
    requires IsSlot(s, t, i)
  {
    s.blocks[t].meta[i]
  }

  function Bytes(s: State, t: int, i: int): seq<byte>
    requires IsSlot(s, t, i)
  {
    s.blocks[t].data[i]
  }

  predicate Live(s: State, t: int, i: int) {
    IsSlot(s, t, i) && IsValid(SlotAt(s, t, i).word)
  }

  function Pins(s: State, t: int, i: int): nat
    requires IsSlot(s, t, i)
  {
    Rc(SlotAt(s, t, i).word)
  }

  function SizeOf(s: State, t: int): nat
    requires HasBlock(s, t)
  {
    s.blocks[t].size
  }

  /** The objects are page-aligned, of a registered type, inside the pool and in
      different pages. */
  ghost predicate ObjOk(s: State, o: GAddr) {
    && HasBlock(s, o.typeId) && s.mem.pageSize > 0
    && 0 < SizeOf(s, o.typeId) <= s.mem.pageSize
    && o.offset % s.mem.pageSize == 0
    && s.mem.addr <= o.offset && o.offset + s.mem.pageSize <= UpperBound(s.mem)
    && o.offset + s.mem.pageSize <= s.alloc.next
  }

  ghost predicate ObjsOk(s: State) {
    && (forall o :: o in s.objs ==> ObjOk(s, o))
    && (forall o, q :: o in s.objs && q in s.objs && o != q ==>
          o.offset + s.mem.pageSize <= q.offset || q.offset + s.mem.pageSize <= o.offset)
  }

  function Slice(r: seq<byte>, at: int, n: nat): seq<byte>
    requires 0 <= at && at + n <= |r|
  {
    r[at..at + n]
  }

  /** r with the bytes bs written at position at. */
  function Splice(r: seq<byte>, at: int, bs: seq<byte>): (r': seq<byte>)
    requires 0 <= at && at + |bs| <= |r|
    ensures |r'| == |r|
  {
    r[..at] + bs + r[at + |bs|..]
  }

  lemma SpliceSlices(r: seq<byte>, at: int, bs: seq<byte>, k: int, n: nat)
    requires 0 <= at && at + |bs| <= |r| && 0 <= k && k + n <= |r|
    ensures k == at && n == |bs| ==> Slice(Splice(r, at, bs), k, n) == bs
    ensures k + n <= at || at + |bs| <= k ==> Slice(Splice(r, at, bs), k, n) == Slice(r, k, n)
    ensures bs == Slice(r, at, |bs|) ==> Splice(r, at, bs) == r
  {
  }

  lemma SliceOfSlice(r: seq<byte>, lo: int, size: nat, at: int, n: nat)
    requires 0 <= lo && lo + size <= |r| && 0 <= at && at + n <= size
    ensures Slice(Slice(r, lo, size), at, n) == Slice(r, lo + at, n)
  {
    var x, y := r[lo..lo + size][at..at + n], r[lo + at..lo + at + n];
    forall k | 0 <= k < n
      ensures x[k] == y[k]
    {
      assert r[lo..lo + size][at + k] == r[lo + (at + k)];
    }
    assert x == y;
  }

  lemma SpliceInside(r: seq<byte>, lo: int, n: nat, at: int, bs: seq<byte>)
    requires 0 <= lo && lo + n <= |r| && 0 <= at && at + |bs| <= n
    ensures Slice(Splice(r, lo + at, bs), lo, n) == Splice(Slice(r, lo, n), at, bs)
  {
  }

  /** The bytes of an object in remote memory. */
  function RemoteBytes(s: State, o: GAddr): seq<byte>
    requires HasBlock(s, o.typeId)
    requires s.mem.addr <= o.offset && o.offset - s.mem.addr + SizeOf(s, o.typeId) <= |s.remote|
  {
    Slice(s.remote, o.offset - s.mem.addr, SizeOf(s, o.typeId))
  }

  ghost predicate WordsOk(s: State) {
    forall t, i :: IsSlot(s, t, i) ==> Quiescent(SlotAt(s, t, i).word)
  }

  /** Every table entry leads to a valid slot that carries its tag... */
  ghost predicate TableOk(s: State) {
    forall b :: b in s.table ==>
      b in s.objs && Live(s, b.typeId, s.table[b]) && SlotAt(s, b.typeId, s.table[b]).tag == b.offset
  }

  /** ...and every valid slot is where the table says its tag is. */
  ghost predicate SlotsOk(s: State) {
    forall t, i :: Live(s, t, i) ==>
      GAddr(t, SlotAt(s, t, i).tag) in s.table && s.table[GAddr(t, SlotAt(s, t, i).tag)] == i
  }

  /** A slot taken off the free list but not filled yet. */
  datatype Hole = NoHole | Hole(typeId: nat, slot: int)

  ghost predicate FreeListOk(s: State, t: nat, hole: Hole)
    requires HasBlock(s, t)
  {
    var free := s.blocks[t].free;
    && (forall k, l :: 0 <= k < l < |free| ==> free[k] != free[l])
    && (forall i :: i in free ==> IsSlot(s, t, i) && !Live(s, t, i) && hole != Hole(t, i))
    && (forall i :: IsSlot(s, t, i) && !Live(s, t, i) ==> i in free || hole == Hole(t, i))
  }

  /** The free slots and the valid slots of a type partition its slots. */
  ghost predicate FreeOk(s: State, hole: Hole) {
    && (forall t :: HasBlock(s, t) ==> FreeListOk(s, t, hole))
    && (hole.Hole? ==> IsSlot(s, hole.typeId, hole.slot) && !Live(s, hole.typeId, hole.slot))
  }

  /** A valid slot without the dirty bit agrees with remote memory. */
  ghost predicate CleanOk(s: State)
    requires ShapeOk(s) && ObjsOk(s) && TableOk(s)
  {
    forall b :: b in s.table && !SlotAt(s, b.typeId, s.table[b]).dirty ==>
      Bytes(s, b.typeId, s.table[b]) == RemoteBytes(s, b)
  }

  ghost predicate InvHole(s: State, hole: Hole)
    ensures InvHole(s, hole) ==> ShapeOk(s) && ObjsOk(s) && TableOk(s)
  {
    && ShapeOk(s) && AllocOk(s.mem, s.alloc) && ObjsOk(s)
    && WordsOk(s) && TableOk(s) && SlotsOk(s) && FreeOk(s, hole) && CleanOk(s)
  }

  /** What holds between two calls of the runtime. */
  ghost predicate Inv(s: State)
    ensures Inv(s) ==> ShapeOk(s) && ObjsOk(s) && TableOk(s)
  {
    InvHole(s, NoHole)
  }

  /** The value of an object that the program sees: the slot's bytes if it is
      cached, remote memory otherwise. */
  function ObjBytes(s: State, o: GAddr): seq<byte>
    requires HasBlock(s, o.typeId)
    requires o in s.table ==> IsSlot(s, o.typeId, s.table[o])
    requires s.mem.addr <= o.offset && o.offset - s.mem.addr + SizeOf(s, o.typeId) <= |s.remote|
  {
    if o in s.table then Bytes(s, o.typeId, s.table[o]) else RemoteBytes(s, o)
  }

  ghost function View(s: State): map<GAddr, seq<byte>>
    requires ShapeOk(s) && ObjsOk(s) && TableOk(s)
    ensures View(s).Keys == s.objs
  {
    map o | o in s.objs :: ObjBytes(s, o)
  }

  lemma ViewAt(s: State, o: GAddr)
    requires ShapeOk(s) && ObjsOk(s) && TableOk(s) && o in s.objs
    ensures ObjOk(s, o)
    ensures o.offset - s.mem.addr + SizeOf(s, o.typeId) <= |s.remote|
    ensures o in s.table ==>
      && Live(s, o.typeId, s.table[o]) && IsSlot(s, o.typeId, s.table[o])
      && SlotAt(s, o.typeId, s.table[o]).tag == o.offset
      && View(s)[o] == Bytes(s, o.typeId, s.table[o])
    ensures o !in s.table ==> View(s)[o] == RemoteBytes(s, o)
  {
  }

  /** Base of the object that an address of a registered type would belong to. */
  function CacheBase(s: State, g: GAddr): GAddr
    requires HasBlock(s, g.typeId) && SizeOf(s, g.typeId) > 0 && 0 < s.mem.pageSize < TWO_64 && g.offset < TWO_64
  {
    BaseIn(s.mem.pageSize, SizeOf(s, g.typeId), g)
  }

  // Single updates

  function SetSlot(s: State, t: nat, i: int, m: Slot): State
    requires IsSlot(s, t, i)
  {
    s.(blocks := s.blocks[t := s.blocks[t].(meta := s.blocks[t].meta[i := m])])
  }

  function SetBytes(s: State, t: nat, i: int, bs: seq<byte>): State
    requires IsSlot(s, t, i)
  {
    s.(blocks := s.blocks[t := s.blocks[t].(data := s.blocks[t].data[i := bs])])
  }

  function SetFree(s: State, t: nat, free: seq<int>): State
    requires HasBlock(s, t)
  {
    s.(blocks := s.blocks[t := s.blocks[t].(free := free)])
  }

  // Operations

  function Pin(s: State, t: nat, i: int): State
    requires IsSlot(s, t, i)
  {
    SetSlot(s, t, i, SlotAt(s, t, i).(word := Increment(SlotAt(s, t, i).word)))
  }

  function Unpin(s: State, t: nat, i: int): State
    requires IsSlot(s, t, i)
  {
    SetSlot(s, t, i, SlotAt(s, t, i).(word := Decrement(SlotAt(s, t, i).word)))
  }

  function MarkDirty(s: State, t: nat, i: int): State
    requires IsSlot(s, t, i)
  {
    SetSlot(s, t, i, SlotAt(s, t, i).(dirty := true))
  }

  /** Bytes stored through a pointer into a slot. */
  function Store(s: State, t: nat, i: int, at: int, bs: seq<byte>): State
    requires IsSlot(s, t, i) && 0 <= at && at + |bs| <= |Bytes(s, t, i)|
  {
    SetBytes(s, t, i, Splice(Bytes(s, t, i), at, bs))
  }

  function TakeFree(s: State, t: nat): State
    requires HasBlock(s, t) && s.blocks[t].free != []
  {
    SetFree(s, t, s.blocks[t].free[1..])
  }

  predicate Evictable(s: State, t: nat, i: int) {
    IsSlot(s, t, i) && CompareExchangeValid(SlotAt(s, t, i).word).0
  }

  /** Invalidates a slot, drops its table entry and writes it back if dirty. */
  function Evict(s: State, t: nat, i: int): State
    requires IsSlot(s, t, i)
    requires s.mem.addr <= SlotAt(s, t, i).tag
    requires SlotAt(s, t, i).tag - s.mem.addr + |Bytes(s, t, i)| <= |s.remote|
  {
    var m := SlotAt(s, t, i);
    SetSlot(s, t, i, Slot(0, false, 0)).(
      table := s.table - {GAddr(t, m.tag)},
      remote := if m.dirty then Splice(s.remote, m.tag - s.mem.addr, Bytes(s, t, i)) else s.remote)
  }

  /** Fetches an object into a slot and pins it once. */
  function Fill(s: State, b: GAddr, i: int): State
    requires IsSlot(s, b.typeId, i)
    requires s.mem.addr <= b.offset && b.offset - s.mem.addr + SizeOf(s, b.typeId) <= |s.remote|
  {
    SetBytes(SetSlot(s, b.typeId, i, Slot(b.offset, false, FLAG_VALID + 1)), b.typeId, i, RemoteBytes(s, b))
      .(table := s.table[b := i])
  }

  /** Whether a request for an object can be served: it is cached, or there is a
      free slot, or the chosen victim can be evicted. */
  predicate Servable(s: State, b: GAddr, victim: int)
    requires HasBlock(s, b.typeId)
  {
    b in s.table || s.blocks[b.typeId].free != [] || Evictable(s, b.typeId, victim)
  }

  /** `cache_request` for an address inside object b. */
  ghost function Request(s: State, b: GAddr, victim: int): State
    requires Inv(s) && b in s.objs && Servable(s, b, victim)
  {
    var t := b.typeId;
    if b in s.table then Pin(s, t, s.table[b])
    else if s.blocks[t].free != [] then
      FreeSlotOk(s, t);
      Fill(TakeFree(s, t), b, s.blocks[t].free[0])
    else
      VictimInPool(s, t, victim);
      Fill(Evict(s, t, victim), b, victim)
  }

  lemma FreeSlotOk(s: State, t: nat)
    requires Inv(s) && HasBlock(s, t) && s.blocks[t].free != []
    ensures IsSlot(s, t, s.blocks[t].free[0]) && !Live(s, t, s.blocks[t].free[0])
  {
    assert FreeListOk(s, t, NoHole);
    assert s.blocks[t].free[0] in s.blocks[t].free;
  }

  /** The tag of a valid slot is an allocated object. */
  lemma LiveIsObject(s: State, t: nat, i: int)
    requires Inv(s) && Live(s, t, i)
    ensures var o := GAddr(t, SlotAt(s, t, i).tag);
      o in s.objs && ObjOk(s, o) && o in s.table && s.table[o] == i
    ensures Quiescent(SlotAt(s, t, i).word)
  {
  }

  lemma VictimInPool(s: State, t: nat, i: int)
    requires Inv(s) && Evictable(s, t, i)
    ensures Live(s, t, i)
    ensures s.mem.addr <= SlotAt(s, t, i).tag
    ensures SlotAt(s, t, i).tag - s.mem.addr + |Bytes(s, t, i)| <= |s.remote|
  {
    CompareExchangeRefines(SlotAt(s, t, i).word);
    LiveIsObject(s, t, i);
    assert BlockShape(s.blocks[t]);
  }

  /** The eviction of a slot that the compare-exchange accepts. */
  ghost function EvictVictim(s: State, t: nat, i: int): State
    requires Inv(s) && Evictable(s, t, i)
  {
    VictimInPool(s, t, i);
    Evict(s, t, i)
  }
}
