/** What a request, an allocation and a type registration do to the whole state. */
module CacheRequest {
  import opened Options
  import opened Bits
  import opened Addr
  import opened Alloc
  import opened SlotWord
  import opened CacheSpec
  import opened CacheInv

  /** The tag computed with the page masks is the base of the object that the
      address lies in, for exactly the addresses inside allocated objects. */
  ghost predicate Inside(s: State, g: GAddr, b: GAddr) {
    b in s.objs && HasBlock(s, b.typeId) && g.typeId == b.typeId
    && b.offset <= g.offset < b.offset + SizeOf(s, b.typeId)
  }

  lemma AllocatorAndCacheAgree(s: State, g: GAddr, b: GAddr)
    requires ShapeOk(s) && ObjsOk(s) && HasBlock(s, g.typeId) && g.offset < TWO_64
    ensures SizeOf(s, g.typeId) > 0 && 0 < s.mem.pageSize < TWO_64
    ensures Inside(s, g, b)
       <==> b in s.objs && b == GAddr(g.typeId, ExtractTag(s.mem.pageSize, SizeOf(s, g.typeId), g.offset))
    ensures Inside(s, g, b) <==> b in s.objs && b == CacheBase(s, g)
  {
    var p, size := s.mem.pageSize, SizeOf(s, g.typeId);
    assert BlockShape(s.blocks[g.typeId]);
    TagDecomposition(p, size, g.offset);
    if Inside(s, g, b) {
      assert ObjOk(s, b);
      TagOfInterior(p, size, b.offset, 0, g.offset);
    }
  }

  /** A pinned slot is left alone: same object, same bytes, no fewer references,
      and the dirty bit is not lost. */
  ghost predicate StaysPinned(s: State, s': State, t: int, i: int) {
    Live(s, t, i) && Pins(s, t, i) > 0 ==>
      && Live(s', t, i) && Pins(s', t, i) >= Pins(s, t, i)
      && SlotAt(s', t, i).tag == SlotAt(s, t, i).tag
      && SlotAt(s', t, i).dirty == SlotAt(s, t, i).dirty
      && Bytes(s', t, i) == Bytes(s, t, i)
  }

  /** The number of references a request leaves on each slot. */
  ghost predicate PinsAfter(s: State, s': State, b: GAddr) {
    && b in s'.table && Live(s', b.typeId, s'.table[b])
    && SlotAt(s', b.typeId, s'.table[b]).tag == b.offset
    && (forall u, j :: IsSlot(s, u, j) && IsSlot(s', u, j) && !(u == b.typeId && j == s'.table[b]) ==>
          SlotAt(s', u, j) == SlotAt(s, u, j))
    && IsSlot(s, b.typeId, s'.table[b])
    && Pins(s', b.typeId, s'.table[b]) == Pins(s, b.typeId, s'.table[b]) + 1
  }

  /** A request keeps the invariant and the view, whichever slot is chosen; it
      adds one reference to the slot that now holds the object. */
  lemma RequestKeeps(s: State, b: GAddr, victim: int)
    requires Inv(s) && b in s.objs && HasBlock(s, b.typeId) && Servable(s, b, victim)
    requires b in s.table ==> Pins(s, b.typeId, s.table[b]) + 1 < RC_LIMIT
    ensures var s' := Request(s, b, victim);
      && Inv(s') && View(s') == View(s)
      && SameFrame(s, s') && PinsAfter(s, s', b)
  {
    hide InvHole, Quiescent, IsValid, Rc, View, CompareExchangeValid;
    ViewAt(s, b);
    if b in s.table {
      HitKeeps(s, b);
    } else if s.blocks[b.typeId].free != [] {
      FreeSlotOk(s, b.typeId);
      MissWithFreeSlot(s, b);
    } else {
      VictimInPool(s, b.typeId, victim);
      MissWithVictim(s, b, victim);
    }
  }

  lemma HitKeeps(s: State, b: GAddr)
    requires Inv(s) && b in s.table && Live(s, b.typeId, s.table[b])
    requires SlotAt(s, b.typeId, s.table[b]).tag == b.offset
    requires Pins(s, b.typeId, s.table[b]) + 1 < RC_LIMIT
    ensures var s' := Pin(s, b.typeId, s.table[b]);
      && Inv(s') && View(s') == View(s) && SameFrame(s, s') && PinsAfter(s, s', b)
  {
    hide InvHole, Quiescent, IsValid, Rc, View;
    var t, i := b.typeId, s.table[b];
    PinKeeps(s, t, i);
    SetSlotReads(s, t, i, SlotAt(s, t, i).(word := Increment(SlotAt(s, t, i).word)));
  }

  /** A slot that is not valid holds no references. */
  lemma DeadHasNoPins(s: State, hole: Hole, t: int, i: int)
    requires InvHole(s, hole) && IsSlot(s, t, i) && !Live(s, t, i)
    ensures Pins(s, t, i) == 0
  {
    hide IsValid, Rc;
    ClearWord();
  }

  lemma FrameTransitive(s: State, s1: State, s2: State, t: int, i: int)
    requires SameFrame(s, s1) && SameFrame(s1, s2) && OtherSlots(s, s1, t, i) && OtherSlots(s1, s2, t, i)
    ensures SameFrame(s, s2) && OtherSlots(s, s2, t, i)
  {
    hide ShapeOk;
  }

  /** Filling a slot that nobody references gives the object its one reference. */
  lemma FilledOnce(s: State, s': State, b: GAddr, i: int)
    requires SameFrame(s, s') && OtherSlots(s, s', b.typeId, i)
    requires b in s'.table && s'.table[b] == i && Live(s', b.typeId, i)
    requires SlotAt(s', b.typeId, i).tag == b.offset && Pins(s', b.typeId, i) == 1
    requires IsSlot(s, b.typeId, i) && Pins(s, b.typeId, i) == 0
    ensures PinsAfter(s, s', b)
  {
    hide IsValid, Rc, ShapeOk;
  }

  lemma MissWithFreeSlot(s: State, b: GAddr)
    requires Inv(s) && b in s.objs && b !in s.table && HasBlock(s, b.typeId) && ObjOk(s, b)
    requires b.offset - s.mem.addr + SizeOf(s, b.typeId) <= |s.remote|
    requires s.blocks[b.typeId].free != [] && IsSlot(s, b.typeId, s.blocks[b.typeId].free[0])
    requires !Live(s, b.typeId, s.blocks[b.typeId].free[0])
    ensures var s1 := TakeFree(s, b.typeId);
      var i := s.blocks[b.typeId].free[0];
      && SameFrame(s, s1) && IsSlot(s1, b.typeId, i)
      && var s' := Fill(s1, b, i);
      && Inv(s') && View(s') == View(s) && PinsAfter(s, s', b) && SameFrame(s, s')
      && s'.remote == s.remote && s'.table == s.table[b := i]
  {
    hide InvHole, Quiescent, IsValid, Rc, View, Fill, TakeFree, SameFrame, PinsAfter, ShapeOk, Pins;
    var t, i := b.typeId, s.blocks[b.typeId].free[0];
    var s1 := TakeFree(s, t);
    TakeFreeReads(s, t);
    TakeFreeKeeps(s, t);
    FillKeeps(s1, b, i);
    FillReads(s1, b, i);
    DeadHasNoPins(s, NoHole, t, i);
    FrameTransitive(s, s1, Fill(s1, b, i), t, i);
    FilledOnce(s, Fill(s1, b, i), b, i);
  }

  lemma MissWithVictim(s: State, b: GAddr, victim: int)
    requires Inv(s) && b in s.objs && b !in s.table && HasBlock(s, b.typeId) && ObjOk(s, b)
    requires b.offset - s.mem.addr + SizeOf(s, b.typeId) <= |s.remote|
    requires Evictable(s, b.typeId, victim) && Live(s, b.typeId, victim)
    requires s.mem.addr <= SlotAt(s, b.typeId, victim).tag
    requires SlotAt(s, b.typeId, victim).tag - s.mem.addr + |Bytes(s, b.typeId, victim)| <= |s.remote|
    ensures var s1 := Evict(s, b.typeId, victim);
      && SameFrame(s, s1)
      && var s' := Fill(s1, b, victim);
      && Inv(s') && View(s') == View(s) && PinsAfter(s, s', b) && SameFrame(s, s')
      && s'.remote == s1.remote
      && s'.table == (s.table - {GAddr(b.typeId, SlotAt(s, b.typeId, victim).tag)})[b := victim]
  {
    hide InvHole, Quiescent, IsValid, Rc, View, Evict, Fill, SameFrame, OtherSlots, PinsAfter;
    assert IsSlot(s, b.typeId, victim);
    var t := b.typeId;
    var s1 := Evict(s, t, victim);
    EvictReads(s, t, victim);
    EvictKeeps(s, t, victim);
    FillKeeps(s1, b, victim);
    FillReads(s1, b, victim);
    EvictableWord(SlotAt(s, t, victim).word);
    FrameTransitive(s, s1, Fill(s1, b, victim), t, victim);
    FilledOnce(s, Fill(s1, b, victim), b, victim);
  }

  /** Pin safety of one request: no pinned slot is evicted, refetched or changed. */
  lemma RequestPinSafety(s: State, b: GAddr, victim: int, t: int, i: int)
    requires Inv(s) && b in s.objs && HasBlock(s, b.typeId) && Servable(s, b, victim)
    requires b in s.table ==> Pins(s, b.typeId, s.table[b]) + 1 < RC_LIMIT
    ensures StaysPinned(s, Request(s, b, victim), t, i)
  {
    hide InvHole, View, Quiescent, IsValid, Rc, CompareExchangeValid, Request, ShapeOk, PinsAfter;
    RequestKeeps(s, b, victim);
    if Live(s, t, i) && Pins(s, t, i) > 0 {
      RequestBytes(s, b, victim, t, i);
      PinnedStays(s, Request(s, b, victim), b, t, i);
    }
  }

  lemma PinnedStays(s: State, s': State, b: GAddr, t: int, i: int)
    requires Live(s, t, i) && Pins(s, t, i) > 0 && SameFrame(s, s') && PinsAfter(s, s', b) && IsSlot(s', t, i)
    requires Bytes(s', t, i) == Bytes(s, t, i)
    requires t == b.typeId && b in s'.table && i == s'.table[b] ==> s' == Pin(s, t, i)
    ensures StaysPinned(s, s', t, i)
  {
    hide IsValid, Rc, ShapeOk;
  }

  /** A pinned slot is not the one that is filled. */
  lemma RequestBytes(s: State, b: GAddr, victim: int, t: int, i: int)
    requires Inv(s) && b in s.objs && HasBlock(s, b.typeId) && Servable(s, b, victim)
    requires Live(s, t, i) && Pins(s, t, i) > 0
    requires SameFrame(s, Request(s, b, victim))
    ensures var s' := Request(s, b, victim);
      && Bytes(s', t, i) == Bytes(s, t, i)
      && (t == b.typeId && b in s'.table && i == s'.table[b] ==> s' == Pin(s, t, i))
  {
    hide InvHole, Quiescent, View, Evict, Fill, TakeFree;
    ViewAt(s, b);
    var u := b.typeId;
    if b in s.table {
      var j := s.table[b];
      SetSlotReads(s, u, j, SlotAt(s, u, j).(word := Increment(SlotAt(s, u, j).word)));
    } else if s.blocks[u].free != [] {
      var j := s.blocks[u].free[0];
      FreeSlotOk(s, u);
      TakeFreeReads(s, u);
      FillReads(TakeFree(s, u), b, j);
    } else {
      VictimInPool(s, u, victim);
      EvictReads(s, u, victim);
      EvictableWord(SlotAt(s, u, victim).word);
      FillReads(Evict(s, u, victim), b, victim);
    }
  }

  /** Remote memory changes at most in the range of an evicted dirty object that
      nobody has pinned. */
  lemma RequestRemote(s: State, b: GAddr, victim: int, a: int)
    requires Inv(s) && b in s.objs && HasBlock(s, b.typeId) && Servable(s, b, victim)
    requires 0 <= a < |s.remote|
    ensures |Request(s, b, victim).remote| == |s.remote|
    ensures Request(s, b, victim).remote[a] != s.remote[a] ==>
      && b !in s.table && s.blocks[b.typeId].free == []
      && Live(s, b.typeId, victim) && Pins(s, b.typeId, victim) == 0
      && SlotAt(s, b.typeId, victim).dirty
      && SlotAt(s, b.typeId, victim).tag <= s.mem.addr + a
                                            < SlotAt(s, b.typeId, victim).tag + SizeOf(s, b.typeId)
  {
    hide InvHole, Quiescent, IsValid, Rc, View, CompareExchangeValid;
    var u := b.typeId;
    if b !in s.table && s.blocks[u].free == [] {
      VictimInPool(s, u, victim);
      EvictableWord(SlotAt(s, u, victim).word);
      assert BlockShape(s.blocks[u]);
    }
  }

  /** Isolation: a request for one type touches nothing that another type has
      cached, and no table entry of another type. */
  lemma RequestOtherTypes(s: State, b: GAddr, victim: int, o: GAddr)
    requires Inv(s) && b in s.objs && HasBlock(s, b.typeId) && Servable(s, b, victim)
    requires HasBlock(s, o.typeId) && o.typeId != b.typeId
    ensures var s' := Request(s, b, victim);
      && |s'.blocks| == |s.blocks| && s'.blocks[o.typeId] == s.blocks[o.typeId]
      && (o in s'.table <==> o in s.table)
      && (o in s.table ==> s'.table[o] == s.table[o])
      && s'.alloc == s.alloc && s'.objs == s.objs && s'.mem == s.mem
  {
    hide InvHole, Quiescent, IsValid, Rc, View, CompareExchangeValid;
  }

  // Allocation and registration

  /** `disagg_alloc`: the reserved types bring their own size. */
  function RealSize(s: State, t: nat, size: nat): nat
    requires t < |s.blocks|
  {
    if t < RESERVED_TYPES then size else SizeOf(s, t)
  }

  function AllocObject(s: State, t: nat, size: nat): (State, Option<GAddr>)
    requires s.mem.pageSize > 0 && t < |s.blocks| == |s.alloc.chunks|
  {
    var (a, r) := Allocate(s.mem, s.alloc, t, RealSize(s, t, size));
    (s.(alloc := a, objs := if r.Some? && RESERVED_TYPES <= t then s.objs + {r.value} else s.objs), r)
  }

  /** A successful allocation adds one object, whose bytes are what remote memory
      holds there, and leaves every other object alone. */
  lemma AllocObjectKeeps(s: State, t: nat, size: nat)
    requires Inv(s) && t < |s.blocks| && RealSize(s, t, size) > 0
    requires s.alloc.next + s.mem.pageSize < TWO_64
    ensures var (s', r) := AllocObject(s, t, size);
      && Inv(s')
      && s'.blocks == s.blocks && s'.table == s.table && s'.remote == s.remote && s'.mem == s.mem
      && (r.Some? <==> RealSize(s, t, size) <= s.mem.pageSize && s.alloc.next < UpperBound(s.mem))
      && (r.Some? ==> r.value == GAddr(t, s.alloc.next) && r.value !in s.objs)
      && s'.alloc.next == s.alloc.next + (if RealSize(s, t, size) <= s.mem.pageSize then s.mem.pageSize else 0)
      && s'.objs == (if r.Some? && RESERVED_TYPES <= t then s.objs + {r.value} else s.objs)
      && (forall o :: o in s.objs ==> View(s')[o] == View(s)[o])
  {
    hide Quiescent, IsValid, ChunkFull, InvHole, View;
    assert AllocOk(s.mem, s.alloc) by { InvAlloc(s); }
    AllocateMeaning(s.mem, s.alloc, t, RealSize(s, t, size));
    var (s', r) := AllocObject(s, t, size);
    if r.Some? {
      NextIsNew(s, r.value);
    }
    forall o | o in s'.objs && o !in s.objs
      ensures ObjOk(s', o) && o.offset == s.alloc.next
    {
      assert s.alloc.next % s.mem.pageSize == 0 by { InvAlloc(s); }
      assert BlockShape(s.blocks[t]);
    }
    GrowObjects(s, s');
    SameBytesSeen(s, s');
  }

  /** Where slots, table and remote memory are the same, so is what is seen. */
  lemma SameBytesSeen(s: State, s': State)
    requires Inv(s) && Inv(s') && s.objs <= s'.objs
    requires s'.blocks == s.blocks && s'.table == s.table && s'.remote == s.remote && s'.mem == s.mem
    ensures forall o :: o in s.objs ==> View(s')[o] == View(s)[o]
  {
    hide InvHole, View, Quiescent, IsValid, ObjOk, ShapeOk, ObjsOk, TableOk, Slice;
    forall o | o in s.objs
      ensures View(s')[o] == View(s)[o]
    {
      ViewAt(s, o);
      ViewAt(s', o);
      assert ObjOk(s, o);
      RemoteAlike(s, s', o);
    }
  }

  lemma RemoteAlike(s: State, s': State, o: GAddr)
    requires ObjOk(s, o) && ShapeOk(s) && s'.blocks == s.blocks && s'.remote == s.remote && s'.mem == s.mem
    ensures o.offset - s.mem.addr + SizeOf(s, o.typeId) <= |s.remote|
    ensures RemoteBytes(s', o) == RemoteBytes(s, o)
  {
  }

  lemma InvAlloc(s: State)
    requires Inv(s)
    ensures AllocOk(s.mem, s.alloc)
  {
  }

  lemma NextIsNew(s: State, o: GAddr)
    requires Inv(s) && o.offset >= s.alloc.next
    ensures o !in s.objs
  {
    forall q | q in s.objs
      ensures q.offset < s.alloc.next
    {
      assert ObjOk(s, q);
    }
  }

  /** New objects behind the old ones, with nothing cached of them yet. */
  lemma GrowObjects(s: State, s': State)
    requires Inv(s) && AllocOk(s'.mem, s'.alloc) && |s'.alloc.chunks| == |s.blocks|
    requires s'.blocks == s.blocks && s'.table == s.table && s'.remote == s.remote && s'.mem == s.mem
    requires s.objs <= s'.objs && s.alloc.next <= s'.alloc.next
    requires forall o :: o in s'.objs && o !in s.objs ==> ObjOk(s', o) && o.offset == s.alloc.next
    requires forall o, q :: o in s'.objs && q in s'.objs && o !in s.objs && q !in s.objs ==> o == q
    ensures Inv(s')
  {
    hide Quiescent, IsValid, Slice;
    GrowObjectsOk(s, s');
    SameBlocks(s, s');
    assert CleanOk(s');
  }

  lemma GrowObjectsOk(s: State, s': State)
    requires ShapeOk(s) && ObjsOk(s)
    requires s'.blocks == s.blocks && s'.mem == s.mem && s.objs <= s'.objs && s.alloc.next <= s'.alloc.next
    requires forall o :: o in s'.objs && o !in s.objs ==> ObjOk(s', o) && o.offset == s.alloc.next
    requires forall o, q :: o in s'.objs && q in s'.objs && o !in s.objs && q !in s.objs ==> o == q
    ensures ObjsOk(s')
  {
    forall o | o in s'.objs
      ensures ObjOk(s', o)
    {
      if o in s.objs {
        assert ObjOk(s, o);
      }
    }
    forall o, q | o in s'.objs && q in s'.objs && o != q
      ensures o.offset + s.mem.pageSize <= q.offset || q.offset + s.mem.pageSize <= o.offset
    {
      if o in s.objs {
        assert ObjOk(s, o);
      }
      if q in s.objs {
        assert ObjOk(s, q);
      }
    }
  }

  lemma SameBlocks(s: State, s': State)
    requires WordsOk(s) && TableOk(s) && SlotsOk(s) && FreeOk(s, NoHole)
    requires s'.blocks == s.blocks && s'.table == s.table && s.objs <= s'.objs
    ensures WordsOk(s') && TableOk(s') && SlotsOk(s') && FreeOk(s', NoHole)
  {
    hide Quiescent, IsValid;
    assert forall u, j :: IsSlot(s', u, j) <==> IsSlot(s, u, j);
    assert forall u, j :: IsSlot(s, u, j) ==> SlotAt(s', u, j) == SlotAt(s, u, j);
    assert forall u, j :: Live(s', u, j) <==> Live(s, u, j);
    forall u | HasBlock(s', u)
      ensures FreeListOk(s', u, NoHole)
    {
      assert FreeListOk(s, u, NoHole);
    }
  }

  /** The cache block a new type starts with: all slots free and zero. */
  function FreshBlock(size: nat): Block {
    Block(size, seq(SLOT_COUNT, _ => Slot(0, false, 0)),
          seq(SLOT_COUNT, _ => seq(size, _ => 0)), seq(SLOT_COUNT, i => i))
  }

  /** `register_type`: -1 when all type ids are taken, the new id otherwise. */
  function Register(s: State, size: nat): (State, int)
    requires |s.alloc.chunks| == |s.blocks|
  {
    if |s.blocks| >= MAX_TYPES then (s, -1)
    else
      (s.(blocks := s.blocks + [FreshBlock(size)],
          alloc := s.alloc.(chunks := s.alloc.chunks + [[]])), |s.blocks|)
  }

  /** A type with 256 slots, all of them zeroed and free, in order. */
  ghost predicate StartsFree(s: State, t: int) {
    HasBlock(s, t) &&
    var b := s.blocks[t];
    && |b.meta| == |b.data| == |b.free| == 256
    && forall i :: 0 <= i < 256 ==> b.free[i] == i && !Live(s, t, i) && b.data[i] == seq(b.size, _ => 0)
  }

  /** Type ids are given out in order and end with 254; the new type has its slots
      free, and all that was there stays as it was. */
  lemma RegisterKeeps(s: State, size: nat)
    requires Inv(s) && size > 0
    ensures var (s', t) := Register(s, size);
      && Inv(s') && View(s') == View(s)
      && t == (if |s.blocks| < 255 then |s.blocks| else -1)
      && (t == -1 ==> s' == s)
      && (t >= 0 ==> !HasBlock(s, t) && |s'.blocks| == t + 1 && StartsFree(s', t) && SizeOf(s', t) == size)
      && (forall u :: HasBlock(s, u) ==> s'.blocks[u] == s.blocks[u])
  {
    hide Quiescent, IsValid, Slice;
    var (s', t) := Register(s, size);
    if t >= 0 {
      RegisterInv(s, size);
      forall o | o in s.objs
        ensures View(s')[o] == View(s)[o]
      {
        ViewAt(s, o);
        ViewAt(s', o);
      }
      SameView(s, s');
      FreshStartsFree(s', t, size);
    }
  }

  lemma FreshStartsFree(s: State, t: nat, size: nat)
    requires HasBlock(s, t) && s.blocks[t] == FreshBlock(size)
    ensures StartsFree(s, t)
  {
    hide IsValid;
    ClearWord();
  }

  /** Registrations one after the other, and the ids they get. */
  function RegisterAll(s: State, sizes: seq<nat>): (r: (State, seq<int>))
    requires |s.alloc.chunks| == |s.blocks|
    ensures |r.1| == |sizes|
    decreases |sizes|
  {
    if sizes == [] then (s, [])
    else
      var (s1, t) := Register(s, sizes[0]);
      var (s2, ts) := RegisterAll(s1, sizes[1..]);
      (s2, [t] + ts)
  }

  /** Of a fresh context registration k, counted from 0, gets the id k + 3, as long
      as there are ids. */
  lemma TypeIds(mem: MemInfo, remote: seq<byte>, sizes: seq<nat>, k: nat)
    requires k < |sizes|
    ensures RegisterAll(InitState(mem, remote), sizes).1[k] == if k < 252 then k + 3 else -1
  {
    TypeIdsFrom(InitState(mem, remote), sizes, k);
  }

  lemma {:induction false} TypeIdsFrom(s: State, sizes: seq<nat>, k: nat)
    requires |s.alloc.chunks| == |s.blocks| <= 255 && k < |sizes|
    ensures RegisterAll(s, sizes).1[k] == if |s.blocks| + k < 255 then |s.blocks| + k else -1
    decreases |sizes|
  {
    hide FreshBlock;
    if k > 0 {
      TypeIdsFrom(Register(s, sizes[0]).0, sizes[1..], k - 1);
    }
  }

  lemma RegisterInv(s: State, size: nat)
    requires Inv(s) && size > 0 && |s.blocks| < MAX_TYPES
    ensures Inv(Register(s, size).0)
  {
    hide Quiescent, IsValid, Slice;
    var s', n := Register(s, size).0, |s.blocks|;
    RegisterReads(s, size);
    assert ShapeOk(s') by {
      forall u | HasBlock(s', u)
        ensures BlockShape(s'.blocks[u])
      {
        if u != n {
          assert HasBlock(s, u) && BlockShape(s.blocks[u]);
        }
      }
    }
    assert ObjsOk(s') by {
      forall o | o in s'.objs
        ensures ObjOk(s', o)
      {
        assert ObjOk(s, o);
      }
    }
    RegisterFreeLists(s, size);
    RegisterAgrees(s, s');
    assert CleanOk(s') by {
      forall b | b in s'.table && !SlotAt(s', b.typeId, s'.table[b]).dirty
        ensures Bytes(s', b.typeId, s'.table[b]) == RemoteBytes(s', b)
      {
        assert ObjOk(s, b);
      }
    }
  }

  /** Reading after a registration: the old blocks as before, the new one idle. */
  lemma RegisterReads(s: State, size: nat)
    requires |s.alloc.chunks| == |s.blocks| < MAX_TYPES && RESERVED_TYPES <= |s.blocks|
    ensures var s', n := Register(s, size).0, |s.blocks|;
      && (forall u :: HasBlock(s, u) ==> HasBlock(s', u) && s'.blocks[u] == s.blocks[u])
      && (forall u :: HasBlock(s', u) ==> u == n || HasBlock(s, u))
      && s'.blocks[n] == FreshBlock(size)
      && (forall u, j :: IsSlot(s, u, j) ==> IsSlot(s', u, j) && SlotAt(s', u, j) == SlotAt(s, u, j))
      && (forall u, j :: IsSlot(s', u, j) && !IsSlot(s, u, j) ==> SlotAt(s', u, j) == Slot(0, false, 0))
      && (forall u, j :: Live(s', u, j) <==> Live(s, u, j))
      && s'.table == s.table && s'.objs == s.objs && s'.remote == s.remote && s'.mem == s.mem
  {
    hide IsValid;
    ClearWord();
  }

  lemma RegisterAgrees(s: State, s': State)
    requires WordsOk(s) && TableOk(s) && SlotsOk(s) && s'.table == s.table && s'.objs == s.objs
    requires forall u, j :: IsSlot(s, u, j) ==> IsSlot(s', u, j) && SlotAt(s', u, j) == SlotAt(s, u, j)
    requires forall u, j :: IsSlot(s', u, j) && !IsSlot(s, u, j) ==> SlotAt(s', u, j) == Slot(0, false, 0)
    requires forall u, j :: Live(s', u, j) <==> Live(s, u, j)
    ensures WordsOk(s') && TableOk(s') && SlotsOk(s')
  {
    hide Quiescent, IsValid, IsSlot;
    ClearWord();
    assert forall u, j :: Live(s, u, j) ==> IsSlot(s, u, j);
  }

  lemma RegisterFreeLists(s: State, size: nat)
    requires FreeOk(s, NoHole)
    requires |s.alloc.chunks| == |s.blocks| < MAX_TYPES && RESERVED_TYPES <= |s.blocks|
    ensures FreeOk(Register(s, size).0, NoHole)
  {
    hide IsValid;
    var s', n := Register(s, size).0, |s.blocks|;
    RegisterReads(s, size);
    forall u | HasBlock(s', u)
      ensures FreeListOk(s', u, NoHole)
    {
      if u != n {
        assert FreeListOk(s, u, NoHole);
      } else {
        var free := s'.blocks[n].free;
        assert free == FreshBlock(size).free;
        assert |free| == SLOT_COUNT && forall i :: 0 <= i < SLOT_COUNT ==> free[i] == i;
        assert forall i :: IsSlot(s', n, i) <==> 0 <= i < SLOT_COUNT;
        assert forall i :: !Live(s', n, i);
        forall i | 0 <= i < SLOT_COUNT
          ensures i in free
        {
          assert free[i] == i;
        }
      }
    }
  }

  /** A context fresh from the handshake: three reserved types without cache. */
  function InitState(mem: MemInfo, remote: seq<byte>): State {
    State(mem, [Block(0, [], [], []), Block(0, [], [], []), Block(0, [], [], [])], map[], remote,
          AllocState([[], [], []], mem.addr), {})
  }

  lemma InitInv(mem: MemInfo, remote: seq<byte>)
    requires PoolOk(mem) && |remote| == UpperBound(mem) - mem.addr
    ensures Inv(InitState(mem, remote))
    ensures View(InitState(mem, remote)) == map[]
  {
    var s := InitState(mem, remote);
    assert forall t :: !HasBlock(s, t);
    assert forall t, i :: !IsSlot(s, t, i);
  }
}
