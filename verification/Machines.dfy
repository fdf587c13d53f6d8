/** Two machines for one client: flat memory, and the cached runtime. The client
    registers types, allocates, requests, loads, stores and frees tokens. */
module Machines {
  import opened Options
  import opened Bits
  import opened Addr
  import opened Alloc
  import opened SlotWord
  import opened CacheSpec
  import opened CacheRequest

  /** What a client does. `h` numbers the requests of the run; loads and stores go
      through the pointer of a token, at a distance `at` from it. */
  datatype Op =
    | DoRegister(size: nat)
    | DoAlloc(typeId: nat, size: nat)
    | DoRequest(g: GAddr)
    | DoAccessMut(h: nat)
    | DoLoad(h: nat, at: int, n: nat)
    | DoStore(h: nat, at: int, bs: seq<byte>)
    | DoFree(h: nat)

  /** What it can observe. */
  datatype Out = Done | TypeId(id: int) | Address(addr: Option<GAddr>) | Loaded(bs: seq<byte>)

  // Flat memory

  /** A token as the client understands it: an address inside an object. */
  datatype Ref = Ref(base: GAddr, off: int, live: bool, mut: bool)

  datatype Flat = Flat(mem: MemInfo, sizes: seq<nat>, alloc: AllocState, objs: set<GAddr>,
                       bytes: seq<byte>, refs: seq<Ref>)

  predicate HasType(f: Flat, t: int) {
    RESERVED_TYPES <= t < |f.sizes|
  }

  /** An address lies in an object. */
  ghost predicate Within(f: Flat, g: GAddr, b: GAddr) {
    && b in f.objs && HasType(f, b.typeId) && b.typeId == g.typeId
    && b.offset <= g.offset < b.offset + f.sizes[b.typeId]
  }

  ghost predicate Known(f: Flat, g: GAddr) {
    exists b :: Within(f, g, b)
  }

  /** The object that an address lies in. */
  ghost function BaseOf(f: Flat, g: GAddr): (b: GAddr)
    requires Known(f, g)
    ensures Within(f, g, b)
  {
    var b :| Within(f, g, b);
    b
  }

  function CountRefs(refs: seq<Ref>, b: GAddr): nat {
    if refs == [] then 0
    else
      var last := refs[|refs| - 1];
      CountRefs(refs[..|refs| - 1], b) + (if last.live && last.base == b then 1 else 0)
  }

  /** The objects of a type that the client holds tokens of. */
  function PinnedObjects(refs: seq<Ref>, t: nat): set<GAddr> {
    set k | 0 <= k < |refs| && refs[k].live && refs[k].base.typeId == t :: refs[k].base
  }

  predicate InRange(f: Flat, r: Ref, at: int, n: nat) {
    HasType(f, r.base.typeId) && 0 <= r.off + at && r.off + at + n <= f.sizes[r.base.typeId]
  }

  /** The rules a client keeps, all of which it can check by itself: addresses
      lie in allocated objects, tokens are not used after they were freed, stores
      go through mutable accesses, and the objects of one type it holds at a time
      fit into the 256 slots of the cache. */
  ghost predicate Legal(f: Flat, op: Op)
    requires f.mem.pageSize > 0
  {
    match op
    case DoRegister(size) => size > 0
    case DoAlloc(t, size) =>
      && t < |f.sizes| && (if t < RESERVED_TYPES then size else f.sizes[t]) > 0
      && f.alloc.next + f.mem.pageSize < TWO_64
    case DoRequest(g) =>
      && Known(f, g)
      && CountRefs(f.refs, BaseOf(f, g)) + 1 < RC_LIMIT
      && |PinnedObjects(f.refs, g.typeId) + {BaseOf(f, g)}| <= 256
    case DoAccessMut(h) => h < |f.refs| && f.refs[h].live
    case DoLoad(h, at, n) => h < |f.refs| && f.refs[h].live && InRange(f, f.refs[h], at, n)
    case DoStore(h, at, bs) =>
      h < |f.refs| && f.refs[h].live && f.refs[h].mut && InRange(f, f.refs[h], at, |bs|)
    case DoFree(h) => h < |f.refs| && f.refs[h].live
  }

  /** Flat memory that is laid out as the pool is. */
  ghost predicate FlatOk(f: Flat) {
    && PoolOk(f.mem) && AllocOk(f.mem, f.alloc) && |f.sizes| == |f.alloc.chunks|
    && |f.bytes| == UpperBound(f.mem) - f.mem.addr
    && (forall o :: o in f.objs ==>
          HasType(f, o.typeId) && f.mem.addr <= o.offset && o.offset + f.sizes[o.typeId] <= UpperBound(f.mem))
    && (forall h :: 0 <= h < |f.refs| ==> f.refs[h].base in f.objs)
  }

  function FlatAlloc(f: Flat, t: nat, size: nat): (Flat, Out)
    requires f.mem.pageSize > 0 && t < |f.sizes| == |f.alloc.chunks|
  {
    var (a, r) := Allocate(f.mem, f.alloc, t, if t < RESERVED_TYPES then size else f.sizes[t]);
    (f.(alloc := a, objs := if r.Some? && RESERVED_TYPES <= t then f.objs + {r.value} else f.objs), Address(r))
  }

  /** New objects lie in the pool, too. */
  lemma FlatAllocOk(f: Flat, t: nat, size: nat)
    requires FlatOk(f) && Legal(f, DoAlloc(t, size))
    ensures FlatOk(FlatAlloc(f, t, size).0)
  {
    hide Allocate, AllocOk, PoolOk, UpperBound;
    AllocateMeaning(f.mem, f.alloc, t, if t < RESERVED_TYPES then size else f.sizes[t]);
    CounterInPool(f.mem, f.alloc);
  }

  lemma CounterInPool(m: MemInfo, a: AllocState)
    requires AllocOk(m, a)
    ensures m.addr <= a.next
  {
  }

  function At(f: Flat, r: Ref, at: int): int {
    r.base.offset - f.mem.addr + r.off + at
  }

  /** One step on flat memory: requests only remember an address, loads and
      stores go straight to the bytes. */
  ghost function FlatStep(f: Flat, op: Op): (r: (Flat, Out))
    requires FlatOk(f) && Legal(f, op)
    ensures FlatOk(r.0)
  {
    match op
    case DoRegister(size) =>
      if |f.sizes| >= 255 then (f, TypeId(-1))
      else (f.(sizes := f.sizes + [size], alloc := f.alloc.(chunks := f.alloc.chunks + [[]])), TypeId(|f.sizes|))
    case DoAlloc(t, size) =>
      FlatAllocOk(f, t, size);
      FlatAlloc(f, t, size)
    case DoRequest(g) =>
      (f.(refs := f.refs + [Ref(BaseOf(f, g), g.offset - BaseOf(f, g).offset, true, false)]), Done)
    case DoAccessMut(h) => (f.(refs := f.refs[h := f.refs[h].(mut := true)]), Done)
    case DoLoad(h, at, n) => (f, Loaded(Slice(f.bytes, At(f, f.refs[h], at), n)))
    case DoStore(h, at, bs) => (f.(bytes := Splice(f.bytes, At(f, f.refs[h], at), bs)), Done)
    case DoFree(h) => (f.(refs := f.refs[h := f.refs[h].(live := false)]), Done)
  }

  /** Flat memory is a memory: a token for an address leads there, a load finds what was
      stored last at its address, whichever tokens the two go through, and bytes that a
      store does not reach stay. */
  lemma RequestLeadsThere(f: Flat, g: GAddr)
    requires FlatOk(f) && Legal(f, DoRequest(g))
    ensures var f', r := FlatStep(f, DoRequest(g)).0, Last(FlatStep(f, DoRequest(g)).0.refs);
      && f' == f.(refs := f.refs + [r]) && r.live && !r.mut
      && r.base in f.objs && r.base.typeId == g.typeId && r.base.offset + r.off == g.offset && r.off >= 0
      && At(f', r, 0) == g.offset - f.mem.addr
  {
    hide CountRefs, PinnedObjects;
  }

  lemma LoadFindsStored(f: Flat, h: nat, at: int, bs: seq<byte>, k: nat, to: int, n: nat)
    requires FlatOk(f) && Legal(f, DoStore(h, at, bs)) && Legal(f, DoLoad(k, to, n))
    ensures var f', a, b := FlatStep(f, DoStore(h, at, bs)).0, At(f, f.refs[h], at), At(f, f.refs[k], to);
      && Legal(f', DoLoad(k, to, n))
      && (a == b && n == |bs| ==> FlatStep(f', DoLoad(k, to, n)).1 == Loaded(bs))
      && (b + n <= a || a + |bs| <= b ==> FlatStep(f', DoLoad(k, to, n)).1 == FlatStep(f, DoLoad(k, to, n)).1)
  {
    hide Slice, Splice;
    var a, b := At(f, f.refs[h], at), At(f, f.refs[k], to);
    SpliceSlices(f.bytes, a, bs, b, n);
  }

  // The cached system

  datatype Handle = Handle(token: Token, live: bool, mut: bool)

  /** The runtime and the tokens the client has been given. */
  datatype Sys = Sys(s: State, held: seq<Handle>)

  predicate TokenInSlot(s: State, t: Token) {
    IsSlot(s, t.typeId, t.slotIndex)
  }

  predicate CanUse(c: Sys, h: nat) {
    h < |c.held| && TokenInSlot(c.s, c.held[h].token)
  }

  /** The pointer of a token and the bytes it reaches. */
  predicate Reaches(c: Sys, h: nat, at: int, n: nat) {
    CanUse(c, h) &&
    var t := c.held[h].token;
    0 <= t.slotOff + at && t.slotOff + at + n <= |Bytes(c.s, t.typeId, t.slotIndex)|
  }

  /** A step can be taken: memory is not touched out of bounds, and a request
      can be served with the victim at hand. */
  ghost predicate Enabled(c: Sys, op: Op, victim: int) {
    match op
    case DoRegister(_) => |c.s.alloc.chunks| == |c.s.blocks|
    case DoAlloc(t, _) => c.s.mem.pageSize > 0 && t < |c.s.blocks| == |c.s.alloc.chunks|
    case DoRequest(g) =>
      && Inv(c.s) && HasBlock(c.s, g.typeId) && SizeOf(c.s, g.typeId) > 0
      && 0 < c.s.mem.pageSize < TWO_64 && g.offset < TWO_64
      && CacheBase(c.s, g) in c.s.objs && Servable(c.s, CacheBase(c.s, g), victim)
    case DoAccessMut(h) => CanUse(c, h)
    case DoLoad(h, at, n) => Reaches(c, h, at, n)
    case DoStore(h, at, bs) => Reaches(c, h, at, |bs|)
    case DoFree(h) => CanUse(c, h)
  }

  ghost function TokenFor(s: State, b: GAddr, g: GAddr): Token
  {
    Token(b.offset, b.typeId, if b in s.table then s.table[b] else -1, g.offset - b.offset)
  }

  ghost function Step(c: Sys, op: Op, victim: int): (Sys, Out)
    requires Enabled(c, op, victim)
  {
    match op
    case DoRegister(size) =>
      var (s', id) := Register(c.s, size);
      (c.(s := s'), TypeId(id))
    case DoAlloc(t, size) =>
      var (s', r) := AllocObject(c.s, t, size);
      (c.(s := s'), Address(r))
    case DoRequest(g) =>
      var b := CacheBase(c.s, g);
      var s' := Request(c.s, b, victim);
      (Sys(s', c.held + [Handle(TokenFor(s', b, g), true, false)]), Done)
    case DoAccessMut(h) =>
      var t := c.held[h].token;
      (Sys(MarkDirty(c.s, t.typeId, t.slotIndex), c.held[h := c.held[h].(mut := true)]), Done)
    case DoLoad(h, at, n) =>
      var t := c.held[h].token;
      (c, Loaded(Slice(Bytes(c.s, t.typeId, t.slotIndex), t.slotOff + at, n)))
    case DoStore(h, at, bs) =>
      var t := c.held[h].token;
      (c.(s := Store(c.s, t.typeId, t.slotIndex, t.slotOff + at, bs)), Done)
    case DoFree(h) =>
      var t := c.held[h].token;
      (Sys(Unpin(c.s, t.typeId, t.slotIndex), c.held[h := c.held[h].(live := false)]), Done)
  }

  function CountHeld(held: seq<Handle>, t: nat, i: int): nat {
    if held == [] then 0
    else
      var last := held[|held| - 1];
      CountHeld(held[..|held| - 1], t, i)
      + (if last.live && last.token.typeId == t && last.token.slotIndex == i then 1 else 0)
  }
}
