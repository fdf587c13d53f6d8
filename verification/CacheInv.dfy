/** Every cache operation keeps the invariant, and what the program sees. */
module CacheInv {
  import opened Bits
  import opened Addr
  import opened Alloc
  import opened SlotWord
  import opened CacheSpec

  /** Same types, sizes and objects; slots, free lists, table and remote bytes
      may differ. */
  ghost predicate SameFrame(s: State, s': State) {
    && s'.mem == s.mem && s'.objs == s.objs && s'.alloc == s.alloc
    && |s'.remote| == |s.remote|
    && (forall u :: HasBlock(s', u) <==> HasBlock(s, u))
    && (forall u, j :: IsSlot(s', u, j) <==> IsSlot(s, u, j))
    && (forall u :: HasBlock(s, u) && HasBlock(s', u) ==> SizeOf(s', u) == SizeOf(s, u))
    && (ShapeOk(s) ==> ShapeOk(s'))
  }

  ghost predicate SameFrees(s: State, s': State) {
    forall u :: HasBlock(s, u) && HasBlock(s', u) ==> s'.blocks[u].free == s.blocks[u].free
  }

  /** Every slot but slot i of type t is as it was. */
  ghost predicate OtherSlots(s: State, s': State, t: int, i: int) {
    forall u, j :: IsSlot(s, u, j) && IsSlot(s', u, j) && !(u == t && j == i) ==>
      SlotAt(s', u, j) == SlotAt(s, u, j) && Bytes(s', u, j) == Bytes(s, u, j)
  }

  /** Reading after a metadata update. */
  lemma SetSlotReads(s: State, t: nat, i: int, m: Slot)
    requires IsSlot(s, t, i)
    ensures var s' := SetSlot(s, t, i, m);
      && SameFrame(s, s') && SameFrees(s, s') && OtherSlots(s, s', t, i)
      && SlotAt(s', t, i) == m && Bytes(s', t, i) == Bytes(s, t, i)
  {
    var s' := SetSlot(s, t, i, m);
    if ShapeOk(s) {
      forall u | HasBlock(s', u)
        ensures BlockShape(s'.blocks[u])
      {
        assert HasBlock(s, u) && BlockShape(s.blocks[u]);
      }
    }
  }

  /** The later of two updates of the same slot counts. */
  lemma SetSlotTwice(s: State, t: nat, i: int, m: Slot, m': Slot)
    requires IsSlot(s, t, i)
    ensures IsSlot(SetSlot(s, t, i, m), t, i)
    ensures SetSlot(SetSlot(s, t, i, m), t, i, m') == SetSlot(s, t, i, m')
  {
    var b := s.blocks[t];
    assert b.meta[i := m][i := m'] == b.meta[i := m'];
    assert SetSlot(SetSlot(s, t, i, m), t, i, m').blocks == SetSlot(s, t, i, m').blocks;
  }

  /** Metadata and bytes of a slot can be written in either order. */
  lemma SetBytesThenSlot(s: State, t: nat, i: int, bs: seq<byte>, m: Slot)
    requires IsSlot(s, t, i)
    ensures IsSlot(SetBytes(s, t, i, bs), t, i) && IsSlot(SetSlot(s, t, i, m), t, i)
    ensures SetSlot(SetBytes(s, t, i, bs), t, i, m) == SetBytes(SetSlot(s, t, i, m), t, i, bs)
  {
    assert SetSlot(SetBytes(s, t, i, bs), t, i, m).blocks == SetBytes(SetSlot(s, t, i, m), t, i, bs).blocks;
  }

  /** Reading after slot bytes were replaced by as many. */
  lemma SetBytesReads(s: State, t: nat, i: int, bs: seq<byte>)
    requires IsSlot(s, t, i) && |bs| == SizeOf(s, t)
    ensures var s' := SetBytes(s, t, i, bs);
      && SameFrame(s, s') && SameFrees(s, s') && OtherSlots(s, s', t, i)
      && SlotAt(s', t, i) == SlotAt(s, t, i) && Bytes(s', t, i) == bs
  {
    var s' := SetBytes(s, t, i, bs);
    if ShapeOk(s) {
      forall u | HasBlock(s', u)
        ensures BlockShape(s'.blocks[u])
      {
        assert HasBlock(s, u) && BlockShape(s.blocks[u]);
      }
    }
  }

  /** Objects do not depend on slots, table or remote bytes. */
  lemma SameObjects(s: State, s': State)
    requires ObjsOk(s) && SameFrame(s, s')
    ensures ObjsOk(s')
  {
    forall o | o in s'.objs
      ensures ObjOk(s', o)
    {
      assert ObjOk(s, o);
    }
  }

  lemma SameFreeLists(s: State, s': State, hole: Hole)
    requires FreeOk(s, hole) && SameFrame(s, s') && SameFrees(s, s')
    requires forall u, j :: Live(s', u, j) <==> Live(s, u, j)
    ensures FreeOk(s', hole)
  {
    forall u | HasBlock(s', u)
      ensures FreeListOk(s', u, hole)
    {
      assert FreeListOk(s, u, hole);
    }
  }

  /** Two states in which every object has the same bytes look the same. */
  lemma SameView(s: State, s': State)
    requires ShapeOk(s) && ObjsOk(s) && TableOk(s) && ShapeOk(s') && ObjsOk(s') && TableOk(s')
    requires s'.objs == s.objs
    requires forall o :: o in s.objs ==> View(s')[o] == View(s)[o]
    ensures View(s') == View(s)
  {
    hide *;
    assert View(s').Keys == View(s).Keys;
  }

  /** A valid slot stays valid for its object, and may change its count, its
      bytes if it has the dirty bit, and get the dirty bit. */
  ghost predicate Touched(s: State, s': State, t: int, i: int) {
    && SameFrame(s, s') && SameFrees(s, s') && OtherSlots(s, s', t, i) && s'.table == s.table && s'.remote == s.remote
    && Live(s, t, i) && Live(s', t, i) && Quiescent(SlotAt(s', t, i).word)
    && SlotAt(s', t, i).tag == SlotAt(s, t, i).tag
    && (!SlotAt(s', t, i).dirty ==> !SlotAt(s, t, i).dirty && Bytes(s', t, i) == Bytes(s, t, i))
  }

  lemma TouchedKeeps(s: State, s': State, t: int, i: int)
    requires Inv(s) && Touched(s, s', t, i)
    ensures Inv(s')
  {
    hide Quiescent, IsValid, Slice;
    TouchedAgrees(s, s', t, i);
    SameObjects(s, s');
    SameFreeLists(s, s', NoHole);
    assert CleanOk(s') by {
      forall b | b in s'.table && !SlotAt(s', b.typeId, s'.table[b]).dirty
        ensures Bytes(s', b.typeId, s'.table[b]) == RemoteBytes(s', b)
      {
        assert ObjOk(s, b);
      }
    }
  }

  lemma TouchedAgrees(s: State, s': State, t: int, i: int)
    requires Inv(s) && Touched(s, s', t, i)
    ensures forall u, j :: Live(s', u, j) <==> Live(s, u, j)
    ensures forall u, j :: IsSlot(s, u, j) ==> SlotAt(s', u, j).tag == SlotAt(s, u, j).tag
    ensures WordsOk(s') && TableOk(s') && SlotsOk(s')
  {
    hide Quiescent, IsValid, ShapeOk, ObjsOk, FreeOk, CleanOk, AllocOk;
  }

  /** Only the object of the touched slot can look different. */
  lemma TouchedView(s: State, s': State, t: int, i: int, o: GAddr)
    requires Inv(s) && Inv(s') && Touched(s, s', t, i) && o in s.objs
    ensures o == GAddr(t, SlotAt(s, t, i).tag) ==> View(s)[o] == Bytes(s, t, i) && View(s')[o] == Bytes(s', t, i)
    ensures o != GAddr(t, SlotAt(s, t, i).tag) ==> View(s')[o] == View(s)[o]
  {
    hide Quiescent, IsValid, RemoteBytes, View, Bytes, ShapeOk, ObjsOk, TableOk, InvHole;
    LiveIsObject(s, t, i);
    ViewAt(s, o);
    ViewAt(s', o);
    SameRemoteBytes(s, s', o);
  }

  lemma SameRemoteBytes(s: State, s': State, o: GAddr)
    requires ObjOk(s, o) && SameFrame(s, s') && s'.remote == s.remote && ShapeOk(s)
    ensures o.offset - s.mem.addr + SizeOf(s, o.typeId) <= |s.remote|
    ensures HasBlock(s', o.typeId) && SizeOf(s', o.typeId) == SizeOf(s, o.typeId)
    ensures RemoteBytes(s', o) == RemoteBytes(s, o)
  {
  }

  /** A valid slot may change its count and get the dirty bit. */
  lemma SetSlotKeeps(s: State, t: nat, i: int, m: Slot)
    requires Inv(s) && Live(s, t, i)
    requires Quiescent(m.word) && IsValid(m.word) && m.tag == SlotAt(s, t, i).tag
    requires SlotAt(s, t, i).dirty ==> m.dirty
    ensures Inv(SetSlot(s, t, i, m)) && View(SetSlot(s, t, i, m)) == View(s)
  {
    hide Quiescent, IsValid, InvHole;
    var s' := SetSlot(s, t, i, m);
    SetSlotReads(s, t, i, m);
    TouchedKeeps(s, s', t, i);
    forall o | o in s.objs
      ensures View(s')[o] == View(s)[o]
    {
      TouchedView(s, s', t, i, o);
    }
    SameView(s, s');
  }

  lemma PinKeeps(s: State, t: nat, i: int)
    requires Inv(s) && Live(s, t, i) && Pins(s, t, i) + 1 < RC_LIMIT
    ensures Inv(Pin(s, t, i)) && View(Pin(s, t, i)) == View(s)
    ensures Live(Pin(s, t, i), t, i) && Pins(Pin(s, t, i), t, i) == Pins(s, t, i) + 1
  {
    hide InvHole, View, Quiescent, IsValid, Rc;
    LiveIsObject(s, t, i);
    QuiescentSteps(SlotAt(s, t, i).word);
    SetSlotKeeps(s, t, i, SlotAt(s, t, i).(word := Increment(SlotAt(s, t, i).word)));
  }

  lemma UnpinKeeps(s: State, t: nat, i: int)
    requires Inv(s) && Live(s, t, i) && Pins(s, t, i) > 0
    ensures Inv(Unpin(s, t, i)) && View(Unpin(s, t, i)) == View(s)
    ensures Live(Unpin(s, t, i), t, i) && Pins(Unpin(s, t, i), t, i) == Pins(s, t, i) - 1
  {
    hide InvHole, View, Quiescent, IsValid, Rc;
    LiveIsObject(s, t, i);
    QuiescentSteps(SlotAt(s, t, i).word);
    SetSlotKeeps(s, t, i, SlotAt(s, t, i).(word := Decrement(SlotAt(s, t, i).word)));
  }

  /** A reference can be dropped if and only if one is held: the decrement of a zero
      count borrows from the flags. */
  lemma UnpinKeepsExactly(s: State, t: nat, i: int)
    requires Inv(s) && Live(s, t, i)
    ensures Inv(Unpin(s, t, i)) <==> Pins(s, t, i) > 0
    ensures Pins(s, t, i) > 0 ==> View(Unpin(s, t, i)) == View(s)
  {
    hide InvHole, Quiescent, IsValid, Rc, View;
    if Pins(s, t, i) > 0 {
      UnpinKeeps(s, t, i);
    } else {
      UnpinReads(s, t, i);
      FreedTwice(s, t, i);
      if Inv(Unpin(s, t, i)) {
        WordIsQuiescent(Unpin(s, t, i), t, i);
      }
    }
  }

  lemma UnpinReads(s: State, t: nat, i: int)
    requires IsSlot(s, t, i)
    ensures IsSlot(Unpin(s, t, i), t, i) && SlotAt(Unpin(s, t, i), t, i).word == Decrement(SlotAt(s, t, i).word)
  {
  }

  lemma WordIsQuiescent(s: State, t: nat, i: int)
    requires Inv(s) && IsSlot(s, t, i)
    ensures Quiescent(SlotAt(s, t, i).word)
  {
  }

  lemma FreedTwice(s: State, t: nat, i: int)
    requires Inv(s) && Live(s, t, i) && Pins(s, t, i) == 0
    ensures !Quiescent(Decrement(SlotAt(s, t, i).word))
  {
    var w := SlotAt(s, t, i).word;
    LiveIsObject(s, t, i);
    QuiescentSteps(w);
    BorrowedFlags();
  }

  lemma MarkDirtyKeeps(s: State, t: nat, i: int)
    requires Inv(s) && Live(s, t, i)
    ensures Inv(MarkDirty(s, t, i)) && View(MarkDirty(s, t, i)) == View(s)
  {
    SetSlotKeeps(s, t, i, SlotAt(s, t, i).(dirty := true));
  }

  /** A store through a pointer of a slot that is marked dirty changes the one
      object cached there, and only its stored range. */
  lemma StoreKeeps(s: State, t: nat, i: int, at: int, bs: seq<byte>)
    requires Inv(s) && Live(s, t, i) && SlotAt(s, t, i).dirty
    requires 0 <= at && at + |bs| <= SizeOf(s, t)
    ensures |Bytes(s, t, i)| == SizeOf(s, t)
    ensures var o, s' := GAddr(t, SlotAt(s, t, i).tag), Store(s, t, i, at, bs);
      && Inv(s') && o in s.objs
      && View(s') == View(s)[o := Splice(View(s)[o], at, bs)]
  {
    hide Quiescent, IsValid, Splice, InvHole, ObjsOk, TableOk;
    assert BlockShape(s.blocks[t]);
    var o, s' := GAddr(t, SlotAt(s, t, i).tag), Store(s, t, i, at, bs);
    LiveIsObject(s, t, i);
    SetBytesReads(s, t, i, Splice(Bytes(s, t, i), at, bs));
    TouchedKeeps(s, s', t, i);
    forall q | q in s.objs
      ensures View(s')[q] == View(s)[o := Splice(View(s)[o], at, bs)][q]
    {
      TouchedView(s, s', t, i, q);
    }
    assert View(s').Keys == View(s)[o := Splice(View(s)[o], at, bs)].Keys;
  }

  /** Taking a slot off the free list leaves a hole. */
  lemma TakeFreeKeeps(s: State, t: nat)
    requires Inv(s) && HasBlock(s, t) && s.blocks[t].free != []
    ensures InvHole(TakeFree(s, t), Hole(t, s.blocks[t].free[0]))
    ensures View(TakeFree(s, t)) == View(s)
  {
    hide Quiescent, IsValid, Slice, FreeOk;
    var s' := TakeFree(s, t);
    FreeSlotOk(s, t);
    TakeFreeReads(s, t);
    SameObjects(s, s');
    TakenFreeLists(s, t);
    SlotsUntouched(s, s', NoHole);
  }

  lemma TakenFreeLists(s: State, t: nat)
    requires FreeOk(s, NoHole) && HasBlock(s, t) && s.blocks[t].free != []
    requires IsSlot(s, t, s.blocks[t].free[0]) && !Live(s, t, s.blocks[t].free[0])
    ensures FreeOk(TakeFree(s, t), Hole(t, s.blocks[t].free[0]))
  {
    hide IsValid;
    var free, s' := s.blocks[t].free, TakeFree(s, t);
    TakeFreeReads(s, t);
    forall u | HasBlock(s', u)
      ensures FreeListOk(s', u, Hole(t, free[0]))
    {
      assert FreeListOk(s, u, NoHole);
      if u == t {
        assert free == [free[0]] + free[1..];
      }
    }
  }

  lemma TakeFreeReads(s: State, t: nat)
    requires HasBlock(s, t) && s.blocks[t].free != []
    ensures var s' := TakeFree(s, t);
      && SameFrame(s, s') && s'.table == s.table && s'.remote == s.remote
      && s'.blocks[t].free == s.blocks[t].free[1..]
      && (forall u :: HasBlock(s, u) && u != t ==> s'.blocks[u].free == s.blocks[u].free)
      && (forall u, j :: IsSlot(s, u, j) ==> SlotAt(s', u, j) == SlotAt(s, u, j) && Bytes(s', u, j) == Bytes(s, u, j))
  {
    var s' := TakeFree(s, t);
    if ShapeOk(s) {
      forall u | HasBlock(s', u)
        ensures BlockShape(s'.blocks[u])
      {
        assert HasBlock(s, u) && BlockShape(s.blocks[u]);
      }
    }
  }

  /** With slots, table and remote memory unchanged the rest of the invariant and
      the view stay. */
  lemma SlotsUntouched(s: State, s': State, hole: Hole)
    requires InvHole(s, hole) && SameFrame(s, s') && ObjsOk(s')
    requires s'.table == s.table && s'.remote == s.remote
    requires forall u, j :: IsSlot(s, u, j) ==> SlotAt(s', u, j) == SlotAt(s, u, j) && Bytes(s', u, j) == Bytes(s, u, j)
    ensures ShapeOk(s') && AllocOk(s'.mem, s'.alloc)
    ensures WordsOk(s') && TableOk(s') && SlotsOk(s') && CleanOk(s')
    ensures View(s') == View(s)
  {
    hide Quiescent, IsValid, Slice;
    UntouchedAgrees(s, s', hole);
    forall o | o in s.objs
      ensures RemoteBytes(s', o) == RemoteBytes(s, o) && View(s')[o] == View(s)[o]
    {
      assert ObjOk(s, o);
    }
    SameView(s, s');
  }

  lemma UntouchedAgrees(s: State, s': State, hole: Hole)
    requires InvHole(s, hole) && SameFrame(s, s')
    requires s'.table == s.table
    requires forall u, j :: IsSlot(s, u, j) ==> SlotAt(s', u, j) == SlotAt(s, u, j) && Bytes(s', u, j) == Bytes(s, u, j)
    ensures WordsOk(s') && TableOk(s') && SlotsOk(s')
  {
    hide Quiescent, IsValid, ShapeOk, ObjsOk, FreeOk, CleanOk, AllocOk;
  }

  // Eviction

  /** Reading after an eviction. */
  lemma EvictReads(s: State, t: nat, i: int)
    requires Inv(s) && Evictable(s, t, i)
    ensures Live(s, t, i) && s.mem.addr <= SlotAt(s, t, i).tag
    ensures SlotAt(s, t, i).tag - s.mem.addr + |Bytes(s, t, i)| <= |s.remote|
    ensures var s' := Evict(s, t, i);
      && SameFrame(s, s') && SameFrees(s, s') && OtherSlots(s, s', t, i)
      && SlotAt(s', t, i) == Slot(0, false, 0)
      && s'.table == s.table - {GAddr(t, SlotAt(s, t, i).tag)}
  {
    hide Quiescent, IsValid, Splice, InvHole;
    VictimInPool(s, t, i);
    var s', s1 := Evict(s, t, i), SetSlot(s, t, i, Slot(0, false, 0));
    SetSlotReads(s, t, i, Slot(0, false, 0));
    assert s'.blocks == s1.blocks;
  }

  /** The eviction as it happens: word, table entry, dirty bit, write-back, tag. */
  lemma EvictInSteps(s: State, t: nat, i: int)
    requires IsSlot(s, t, i) && s.mem.addr <= SlotAt(s, t, i).tag
    requires SlotAt(s, t, i).tag - s.mem.addr + |Bytes(s, t, i)| <= |s.remote|
    ensures var m := SlotAt(s, t, i);
      var s1 := SetSlot(s, t, i, m.(word := 0));
      && IsSlot(s1, t, i)
      && var s2 := s1.(table := s1.table - {GAddr(t, m.tag)});
      && IsSlot(s2, t, i) && SlotAt(s2, t, i) == m.(word := 0)
      && var s3 := SetSlot(s2, t, i, m.(word := 0, dirty := false));
      && IsSlot(s3, t, i) && Bytes(s3, t, i) == Bytes(s, t, i) && s3.remote == s.remote && s3.mem == s.mem
      && SetSlot(if m.dirty then s3.(remote := Splice(s3.remote, m.tag - s.mem.addr, Bytes(s, t, i))) else s3,
                 t, i, Slot(0, false, 0)) == Evict(s, t, i)
  {
    hide Splice;
    var m := SlotAt(s, t, i);
    SetSlotTwice(s, t, i, m.(word := 0), m.(word := 0, dirty := false));
    SetSlotTwice(s, t, i, m.(word := 0, dirty := false), Slot(0, false, 0));
    var s3 := SetSlot(SetSlot(s, t, i, m.(word := 0)).(table := s.table - {GAddr(t, m.tag)}), t, i,
                      m.(word := 0, dirty := false));
    assert s3.blocks == SetSlot(s, t, i, m.(word := 0, dirty := false)).blocks;
  }

  /** Remote memory changes at most in the range of a dirty victim. */
  lemma EvictRemote(s: State, t: nat, i: int, o: GAddr)
    requires Inv(s) && Evictable(s, t, i) && o in s.objs
    ensures Live(s, t, i) && s.mem.addr <= SlotAt(s, t, i).tag
    ensures SlotAt(s, t, i).tag - s.mem.addr + |Bytes(s, t, i)| <= |s.remote|
    ensures ObjOk(s, o)
    ensures var v, s' := GAddr(t, SlotAt(s, t, i).tag), Evict(s, t, i);
      && s'.mem == s.mem && |s'.remote| == |s.remote|
      && HasBlock(s', o.typeId) && SizeOf(s', o.typeId) == SizeOf(s, o.typeId)
      && RemoteBytes(s', o) == if o == v then Bytes(s, t, i) else RemoteBytes(s, o)
  {
    hide Quiescent, IsValid, Splice, Slice;
    VictimInPool(s, t, i);
    LiveIsObject(s, t, i);
    var m := SlotAt(s, t, i);
    var v := GAddr(t, m.tag);
    assert BlockShape(s.blocks[t]) && ObjOk(s, o) && ObjOk(s, v);
    SpliceSlices(s.remote, m.tag - s.mem.addr, Bytes(s, t, i), o.offset - s.mem.addr, SizeOf(s, o.typeId));
  }

  /** Table and slots agree again once the victim's entry is gone. */
  lemma EvictAgrees(s: State, s': State, t: nat, i: int)
    requires Inv(s) && Live(s, t, i) && SameFrame(s, s') && OtherSlots(s, s', t, i)
    requires SlotAt(s', t, i) == Slot(0, false, 0)
    requires s'.table == s.table - {GAddr(t, SlotAt(s, t, i).tag)}
    ensures forall u, j :: Live(s', u, j) <==> Live(s, u, j) && !(u == t && j == i)
    ensures forall b :: b in s'.table ==> !(b.typeId == t && s'.table[b] == i)
    ensures WordsOk(s') && TableOk(s') && SlotsOk(s')
  {
    hide Quiescent, IsValid, ShapeOk, ObjsOk, FreeOk, CleanOk, AllocOk;
    ClearWord();
  }

  lemma EvictFreeLists(s: State, s': State, t: nat, i: int)
    requires FreeOk(s, NoHole) && SameFrame(s, s') && SameFrees(s, s') && Live(s, t, i)
    requires forall u, j :: Live(s', u, j) <==> Live(s, u, j) && !(u == t && j == i)
    ensures FreeOk(s', Hole(t, i))
  {
    hide Live;
    assert IsSlot(s, t, i) by { LiveIsSlot(s, t, i); }
    forall u | HasBlock(s', u)
      ensures FreeListOk(s', u, Hole(t, i))
    {
      assert FreeListOk(s, u, NoHole);
    }
  }

  lemma LiveIsSlot(s: State, t: int, i: int)
    requires Live(s, t, i)
    ensures IsSlot(s, t, i)
  {
  }

  /** Evicting an unpinned slot, with or without write-back, leaves a hole and
      does not change what the program sees. */
  lemma EvictKeeps(s: State, t: nat, i: int)
    requires Inv(s) && Evictable(s, t, i)
    ensures Live(s, t, i) && s.mem.addr <= SlotAt(s, t, i).tag
    ensures SlotAt(s, t, i).tag - s.mem.addr + |Bytes(s, t, i)| <= |s.remote|
    ensures InvHole(Evict(s, t, i), Hole(t, i)) && View(Evict(s, t, i)) == View(s)
  {
    hide Quiescent, IsValid, Slice, Splice, Evict, View;
    EvictReads(s, t, i);
    var s' := Evict(s, t, i);
    SameObjects(s, s');
    EvictAgrees(s, s', t, i);
    EvictFreeLists(s, s', t, i);
    assert CleanOk(s') by {
      forall b | b in s'.table && !SlotAt(s', b.typeId, s'.table[b]).dirty
        ensures Bytes(s', b.typeId, s'.table[b]) == RemoteBytes(s', b)
      {
        EvictRemote(s, t, i, b);
      }
    }
    forall o | o in s.objs
      ensures View(s')[o] == View(s)[o]
    {
      EvictView(s, s', t, i, o);
    }
    SameView(s, s');
  }

  lemma EvictView(s: State, s': State, t: nat, i: int, o: GAddr)
    requires Inv(s) && Evictable(s, t, i) && o in s.objs
    requires Live(s, t, i) && s.mem.addr <= SlotAt(s, t, i).tag
    requires SlotAt(s, t, i).tag - s.mem.addr + |Bytes(s, t, i)| <= |s.remote|
    requires s' == Evict(s, t, i) && SameFrame(s, s') && OtherSlots(s, s', t, i)
    requires s'.table == s.table - {GAddr(t, SlotAt(s, t, i).tag)}
    requires ObjsOk(s') && TableOk(s')
    ensures View(s')[o] == View(s)[o]
  {
    hide Quiescent, IsValid, Slice, Splice, Evict, RemoteBytes, View, Bytes, ShapeOk, ObjsOk, TableOk, InvHole;
    LiveIsObject(s, t, i);
    ViewAt(s, o);
    ViewAt(s', o);
    EvictRemote(s, t, i, o);
  }

  // Fetch

  /** Reading after a fetch. */
  lemma FillReads(s: State, b: GAddr, i: int)
    requires ShapeOk(s) && IsSlot(s, b.typeId, i)
    requires s.mem.addr <= b.offset && b.offset - s.mem.addr + SizeOf(s, b.typeId) <= |s.remote|
    ensures var s' := Fill(s, b, i);
      && SameFrame(s, s') && SameFrees(s, s') && OtherSlots(s, s', b.typeId, i)
      && SlotAt(s', b.typeId, i) == Slot(b.offset, false, FLAG_VALID + 1)
      && Bytes(s', b.typeId, i) == RemoteBytes(s, b)
      && s'.table == s.table[b := i] && s'.remote == s.remote
  {
    var m := Slot(b.offset, false, FLAG_VALID + 1);
    var s1 := SetSlot(s, b.typeId, i, m);
    SetSlotReads(s, b.typeId, i, m);
    assert |RemoteBytes(s, b)| == SizeOf(s1, b.typeId);
    SetBytesReads(s1, b.typeId, i, RemoteBytes(s, b));
    assert Fill(s, b, i).blocks == SetBytes(s1, b.typeId, i, RemoteBytes(s, b)).blocks;
  }

  /** The fetch as it happens: metadata with the I/O bit, table entry, bytes, word. */
  lemma FillInSteps(s: State, b: GAddr, i: int)
    requires ShapeOk(s) && IsSlot(s, b.typeId, i)
    requires s.mem.addr <= b.offset && b.offset - s.mem.addr + SizeOf(s, b.typeId) <= |s.remote|
    ensures var m, m' := Slot(b.offset, false, FLAG_VALID + FLAG_IO), Slot(b.offset, false, FLAG_VALID + 1);
      var s1 := SetSlot(s, b.typeId, i, m);
      var s2 := s1.(table := s.table[b := i]);
      && IsSlot(s2, b.typeId, i) && SlotAt(s2, b.typeId, i) == m && s2.remote == s.remote && s2.mem == s.mem
      && HasBlock(s2, b.typeId) && SizeOf(s2, b.typeId) == SizeOf(s, b.typeId)
      && var s3 := SetBytes(s2, b.typeId, i, RemoteBytes(s, b));
      && IsSlot(s3, b.typeId, i) && SlotAt(s3, b.typeId, i) == m
      && SetSlot(s3, b.typeId, i, m') == Fill(s, b, i)
  {
    hide Slice;
    var t, bs := b.typeId, RemoteBytes(s, b);
    var m, m' := Slot(b.offset, false, FLAG_VALID + FLAG_IO), Slot(b.offset, false, FLAG_VALID + 1);
    var s2 := SetSlot(s, t, i, m).(table := s.table[b := i]);
    SetBytesThenSlot(s2, t, i, bs, m');
    SetSlotTwice(s, t, i, m, m');
    assert SetSlot(s2, t, i, m').blocks == SetSlot(s, t, i, m').blocks;
    assert SetBytes(SetSlot(s2, t, i, m'), t, i, bs) == Fill(s, b, i);
  }

  lemma FillAgrees(s: State, s': State, b: GAddr, i: int)
    requires InvHole(s, Hole(b.typeId, i)) && b in s.objs && b !in s.table
    requires IsSlot(s, b.typeId, i) && SameFrame(s, s') && OtherSlots(s, s', b.typeId, i)
    requires SlotAt(s', b.typeId, i) == Slot(b.offset, false, FLAG_VALID + 1)
    requires s'.table == s.table[b := i]
    ensures !Live(s, b.typeId, i)
    ensures forall u, j :: Live(s', u, j) <==> Live(s, u, j) || (u == b.typeId && j == i)
    ensures WordsOk(s') && TableOk(s') && SlotsOk(s')
  {
    hide Quiescent, IsValid, ShapeOk, ObjsOk, CleanOk, AllocOk;
    ClearWord();
  }

  lemma FillFreeLists(s: State, s': State, t: nat, i: int)
    requires FreeOk(s, Hole(t, i)) && SameFrame(s, s') && SameFrees(s, s')
    requires forall u, j :: Live(s', u, j) <==> Live(s, u, j) || (u == t && j == i)
    ensures FreeOk(s', NoHole)
  {
    hide Live;
    forall u | HasBlock(s', u)
      ensures FreeListOk(s', u, NoHole)
    {
      assert FreeListOk(s, u, Hole(t, i));
    }
  }

  /** Fetching an object into a hole closes it; the object is pinned once. */
  lemma FillKeeps(s: State, b: GAddr, i: int)
    requires InvHole(s, Hole(b.typeId, i)) && b in s.objs && b !in s.table
    ensures IsSlot(s, b.typeId, i) && ObjOk(s, b)
    ensures var s' := Fill(s, b, i);
      && Inv(s') && View(s') == View(s)
      && b in s'.table && s'.table[b] == i && Live(s', b.typeId, i) && Pins(s', b.typeId, i) == 1
  {
    hide Quiescent, IsValid, Rc, Slice, Fill, View;
    var t := b.typeId;
    assert ObjOk(s, b);
    var s' := Fill(s, b, i);
    FillReads(s, b, i);
    ClearWord();
    SameObjects(s, s');
    FillAgrees(s, s', b, i);
    FillFreeLists(s, s', t, i);
    forall o | o in s.objs
      ensures RemoteBytes(s', o) == RemoteBytes(s, o)
    {
      assert ObjOk(s, o);
    }
    assert CleanOk(s');
    forall o | o in s.objs
      ensures View(s')[o] == View(s)[o]
    {
      FillView(s, s', b, i, o);
    }
    SameView(s, s');
  }

  lemma FillView(s: State, s': State, b: GAddr, i: int, o: GAddr)
    requires InvHole(s, Hole(b.typeId, i)) && b in s.objs && b !in s.table && o in s.objs
    requires IsSlot(s, b.typeId, i) && SameFrame(s, s') && OtherSlots(s, s', b.typeId, i)
    requires !Live(s, b.typeId, i)
    requires s'.table == s.table[b := i] && s'.remote == s.remote
    requires ObjsOk(s') && TableOk(s') && ObjOk(s, b)
    requires Bytes(s', b.typeId, i) == RemoteBytes(s, b)
    ensures View(s')[o] == View(s)[o]
  {
    hide Quiescent, IsValid, Slice, View, InvHole, ShapeOk, ObjsOk, TableOk;
    ViewAt(s, o);
    ViewAt(s', o);
  }
}
