/** References counted by object, wherever its slot is, and how many objects can
    be held at once. */
module References {
  import opened Bits
  import opened Addr
  import opened SlotWord
  import opened CacheSpec
  import opened CacheInv
  import opened CacheRequest
  import opened Eviction
  import opened Sets

  predicate Cached(s: State, o: GAddr) {
    o in s.table && IsSlot(s, o.typeId, s.table[o])
  }

  /** The outstanding tokens of an object. */
  function Refs(s: State, o: GAddr): nat {
    if Cached(s, o) then Pins(s, o.typeId, s.table[o]) else 0
  }

  predicate Dirty(s: State, o: GAddr) {
    Cached(s, o) && SlotAt(s, o.typeId, s.table[o]).dirty
  }

  /** The objects of a type that somebody has a token of. */
  function Held(s: State, t: nat): set<GAddr> {
    set o | o in s.table && o.typeId == t && Refs(s, o) > 0
  }

  /** What any calls do that drop no token and take one for each object of p: the
      other counts stay, and what was held keeps its slot and its dirty bit. */
  ghost predicate Onward(s: State, s': State, p: set<GAddr>) {
    && s'.mem == s.mem && |s'.blocks| == |s.blocks|
    && (forall u :: HasBlock(s, u) ==> SizeOf(s', u) == SizeOf(s, u))
    && s.objs <= s'.objs
    && (forall o :: Refs(s', o) == Refs(s, o) + if o in p then 1 else 0)
    && (forall o :: Refs(s, o) > 0 ==> o in s'.table && s'.table[o] == s.table[o] && (Dirty(s, o) ==> Dirty(s', o)))
  }

  lemma OnwardTransitive(s: State, s1: State, s2: State, p: set<GAddr>, q: set<GAddr>)
    requires Onward(s, s1, p) && Onward(s1, s2, q) && p !! q
    ensures Onward(s, s2, p + q)
  {
    hide Refs, Dirty;
  }

  lemma OnwardHeld(s: State, s': State, p: set<GAddr>, t: nat)
    requires Onward(s, s', p) && forall o :: o in p ==> o.typeId == t
    ensures Held(s', t) == Held(s, t) + p
  {
    forall o
      ensures o in Held(s', t) <==> o in Held(s, t) || o in p
    {
      assert Refs(s', o) == Refs(s, o) + if o in p then 1 else 0;
    }
  }

  // One request

  /** A request takes one reference to its object, and to nothing else. */
  lemma RequestOnward(s: State, b: GAddr, victim: int)
    requires Inv(s) && b in s.objs && HasBlock(s, b.typeId) && Servable(s, b, victim)
    requires Refs(s, b) + 1 < RC_LIMIT
    ensures Onward(s, Request(s, b, victim), {b})
  {
    hide InvHole, Quiescent, IsValid, Rc, View, CompareExchangeValid, Request, ShapeOk, Servable, Dirty;
    CachedIffListed(s, b);
    RequestKeeps(s, b, victim);
    RequestBlocks(s, b, victim);
    var s' := Request(s, b, victim);
    NewReference(s, b, victim);
    forall o
      ensures Refs(s', o) == Refs(s, o) + if o == b then 1 else 0
      ensures Refs(s, o) > 0 ==> o in s'.table && s'.table[o] == s.table[o] && (Dirty(s, o) ==> Dirty(s', o))
    {
      HeldStays(s, b, victim, o);
      if o != b {
        OthersCount(s, s', b, o);
      }
    }
  }

  lemma CachedIffListed(s: State, o: GAddr)
    requires Inv(s)
    ensures o in s.table <==> Cached(s, o)
    ensures o in s.table ==> Live(s, o.typeId, s.table[o]) && SlotAt(s, o.typeId, s.table[o]).tag == o.offset
  {
  }

  lemma UncachedHasNoRefs(s: State, o: GAddr)
    requires Inv(s) && o !in s.objs
    ensures Refs(s, o) == 0
  {
  }

  lemma RequestBlocks(s: State, b: GAddr, victim: int)
    requires Inv(s) && b in s.objs && HasBlock(s, b.typeId) && Servable(s, b, victim)
    ensures |Request(s, b, victim).blocks| == |s.blocks|
    ensures Request(s, b, victim).objs == s.objs && Request(s, b, victim).alloc == s.alloc
  {
    hide InvHole, Quiescent, IsValid, View, Slice, Splice;
  }

  lemma NewReference(s: State, b: GAddr, victim: int)
    requires Inv(s) && b in s.objs && HasBlock(s, b.typeId) && Servable(s, b, victim)
    requires PinsAfter(s, Request(s, b, victim), b) && SameFrame(s, Request(s, b, victim))
    ensures Refs(Request(s, b, victim), b) == Refs(s, b) + 1
  {
    hide InvHole, Quiescent, IsValid, Rc, View, Evict, Fill, TakeFree, ShapeOk;
    CachedIffListed(s, b);
    var t := b.typeId;
    ViewAt(s, b);
    if b !in s.table {
      if s.blocks[t].free != [] {
        FreeSlotOk(s, t);
        DeadHasNoPins(s, NoHole, t, s.blocks[t].free[0]);
        TakeFreeReads(s, t);
        FillReads(TakeFree(s, t), b, s.blocks[t].free[0]);
      } else {
        EvictableWord(SlotAt(s, t, victim).word);
        EvictReads(s, t, victim);
        FillReads(Evict(s, t, victim), b, victim);
      }
    }
  }

  /** A held object keeps its slot. */
  lemma HeldStays(s: State, b: GAddr, victim: int, o: GAddr)
    requires Inv(s) && b in s.objs && HasBlock(s, b.typeId) && Servable(s, b, victim)
    requires b in s.table ==> Pins(s, b.typeId, s.table[b]) + 1 < RC_LIMIT
    requires Inv(Request(s, b, victim))
    ensures var s' := Request(s, b, victim);
      Refs(s, o) > 0 ==> o in s'.table && s'.table[o] == s.table[o] && Dirty(s, o) == Dirty(s', o)
  {
    hide InvHole, Quiescent, IsValid, Rc, View, CompareExchangeValid, Request, Servable;
    CachedIffListed(s, o);
    if Refs(s, o) > 0 {
      RequestPinSafety(s, b, victim, o.typeId, s.table[o]);
      LiveIsObject(Request(s, b, victim), o.typeId, s.table[o]);
    }
  }

  lemma OthersCount(s: State, s': State, b: GAddr, o: GAddr)
    requires Inv(s) && Inv(s') && SameFrame(s, s') && PinsAfter(s, s', b) && o != b
    requires Refs(s, o) > 0 ==> o in s'.table && s'.table[o] == s.table[o]
    ensures Refs(s', o) == Refs(s, o)
  {
    hide InvHole, Quiescent, IsValid, Rc, ShapeOk;
    CachedIffListed(s, o);
    CachedIffListed(s', o);
    if o in s'.table {
      var j := s'.table[o];
      assert !(o.typeId == b.typeId && j == s'.table[b]);
      assert SlotAt(s', o.typeId, j) == SlotAt(s, o.typeId, j);
      LiveIsObject(s, o.typeId, j);
    }
  }

  // The other calls

  /** Dirty bits and stores touch no reference. */
  lemma TouchOnward(s: State, s': State, t: int, i: int)
    requires SameFrame(s, s') && s'.table == s.table && OtherSlots(s, s', t, i) && |s'.blocks| == |s.blocks|
    requires IsSlot(s, t, i) && IsSlot(s', t, i) && Pins(s', t, i) == Pins(s, t, i)
    requires SlotAt(s, t, i).dirty ==> SlotAt(s', t, i).dirty
    ensures Onward(s, s', {})
  {
    hide Rc, ShapeOk;
  }

  lemma MarkDirtyOnward(s: State, t: nat, i: int)
    requires IsSlot(s, t, i)
    ensures Onward(s, MarkDirty(s, t, i), {}) && MarkDirty(s, t, i).table == s.table
    ensures MarkDirty(s, t, i).alloc == s.alloc && MarkDirty(s, t, i).objs == s.objs
    ensures IsSlot(MarkDirty(s, t, i), t, i) && SlotAt(MarkDirty(s, t, i), t, i).dirty
  {
    hide Rc, ShapeOk, SameFrame, OtherSlots, Onward;
    SetSlotReads(s, t, i, SlotAt(s, t, i).(dirty := true));
    assert IsSlot(MarkDirty(s, t, i), t, i);
    TouchOnward(s, MarkDirty(s, t, i), t, i);
  }

  lemma StoreOnward(s: State, t: nat, i: int, at: int, bs: seq<byte>)
    requires IsSlot(s, t, i) && 0 <= at && at + |bs| <= |Bytes(s, t, i)| == SizeOf(s, t)
    ensures Onward(s, Store(s, t, i, at, bs), {})
    ensures Store(s, t, i, at, bs).alloc == s.alloc && Store(s, t, i, at, bs).objs == s.objs
  {
    hide Rc, ShapeOk, SameFrame, OtherSlots, Onward, Splice;
    SetBytesReads(s, t, i, Splice(Bytes(s, t, i), at, bs));
    assert IsSlot(Store(s, t, i, at, bs), t, i);
    TouchOnward(s, Store(s, t, i, at, bs), t, i);
  }

  /** An allocation leaves slots and table alone. */
  lemma SameSlotsOnward(s: State, s': State)
    requires s'.mem == s.mem && s'.blocks == s.blocks && s'.table == s.table && s.objs <= s'.objs
    ensures Onward(s, s', {})
  {
    assert forall o :: Cached(s', o) <==> Cached(s, o);
  }

  // Which slots become dirty

  /** The objects of d are dirty now, and of the others none that was not before. */
  ghost predicate Dirties(s: State, s': State, d: set<GAddr>) {
    && (forall o :: o in d ==> Dirty(s', o))
    && (forall o :: Dirty(s', o) ==> Dirty(s, o) || o in d)
  }

  /** What is held stays dirty while no token is dropped. */
  lemma DirtiesTransitive(s: State, s1: State, s2: State, d: set<GAddr>, e: set<GAddr>, p: set<GAddr>)
    requires Dirties(s, s1, d) && Dirties(s1, s2, e) && Onward(s1, s2, p) && forall o :: o in d ==> Refs(s1, o) > 0
    ensures Dirties(s, s2, d + e)
  {
    hide Refs, Dirty;
  }

  lemma NothingDirtied(s: State)
    ensures Dirties(s, s, {})
  {
  }

  /** Where slots and table are the same, so is what is dirty. */
  lemma SameSlotsDirties(s: State, s': State)
    requires s'.blocks == s.blocks && s'.table == s.table
    ensures Dirties(s, s', {})
  {
    assert forall o :: Dirty(s', o) <==> Dirty(s, o);
  }

  /** Stored bytes change no dirty bit. */
  lemma StoreDirties(s: State, t: nat, i: int, at: int, bs: seq<byte>)
    requires IsSlot(s, t, i) && 0 <= at && at + |bs| <= |Bytes(s, t, i)|
    ensures Dirties(s, Store(s, t, i, at, bs), {})
  {
    hide Splice;
    var s' := Store(s, t, i, at, bs);
    SetBytesMeta(s, t, i, Splice(Bytes(s, t, i), at, bs));
    assert forall o :: Dirty(s', o) <==> Dirty(s, o);
  }

  lemma SetBytesMeta(s: State, t: nat, i: int, bs: seq<byte>)
    requires IsSlot(s, t, i)
    ensures var s' := SetBytes(s, t, i, bs);
      && s'.table == s.table
      && forall u, j :: (IsSlot(s', u, j) <==> IsSlot(s, u, j))
                        && (IsSlot(s, u, j) ==> SlotAt(s', u, j) == SlotAt(s, u, j))
  {
  }

  /** A request makes nothing dirty. */
  lemma RequestDirties(s: State, b: GAddr, victim: int)
    requires Inv(s) && b in s.objs && HasBlock(s, b.typeId) && Servable(s, b, victim)
    requires Refs(s, b) + 1 < RC_LIMIT
    ensures Dirties(s, Request(s, b, victim), {})
  {
    hide InvHole, Quiescent, IsValid, Rc, View, CompareExchangeValid, Request, ShapeOk, Servable, Refs;
    CountsInSlot(s, b);
    RequestKeeps(s, b, victim);
    var s' := Request(s, b, victim);
    forall o | Dirty(s', o)
      ensures Dirty(s, o)
    {
      CachedIffListed(s', o);
      if o == b {
        FetchedClean(s, b, victim);
      } else {
        var j := s'.table[o];
        assert !(o.typeId == b.typeId && j == s'.table[b]);
        assert SlotAt(s', o.typeId, j) == SlotAt(s, o.typeId, j);
        LiveIsObject(s, o.typeId, j);
      }
    }
  }

  lemma CountsInSlot(s: State, b: GAddr)
    requires Inv(s) && Refs(s, b) + 1 < RC_LIMIT
    ensures b in s.table ==> IsSlot(s, b.typeId, s.table[b]) && Pins(s, b.typeId, s.table[b]) + 1 < RC_LIMIT
  {
    CachedIffListed(s, b);
  }

  /** What a request fetches is clean. */
  lemma FetchedClean(s: State, b: GAddr, victim: int)
    requires Inv(s) && b in s.objs && HasBlock(s, b.typeId) && Servable(s, b, victim)
    ensures Dirty(Request(s, b, victim), b) ==> Dirty(s, b)
  {
    hide InvHole, Quiescent, IsValid, Rc, View, Evict, Fill, TakeFree, ShapeOk;
    var t := b.typeId;
    ViewAt(s, b);
    if b !in s.table {
      if s.blocks[t].free != [] {
        FreeSlotOk(s, t);
        TakeFreeReads(s, t);
        FillReads(TakeFree(s, t), b, s.blocks[t].free[0]);
      } else {
        EvictReads(s, t, victim);
        FillReads(Evict(s, t, victim), b, victim);
      }
    }
  }

  /** Taking a pointer for writing makes its object dirty and no other. */
  lemma MarkDirties(s: State, o: GAddr)
    requires Inv(s) && o in s.table && IsSlot(s, o.typeId, s.table[o])
    ensures Dirties(s, MarkDirty(s, o.typeId, s.table[o]), {o})
  {
    hide InvHole, Quiescent, IsValid, Rc, ShapeOk, SameFrame;
    var t, i := o.typeId, s.table[o];
    CachedIffListed(s, o);
    SetSlotReads(s, t, i, SlotAt(s, t, i).(dirty := true));
    var s' := MarkDirty(s, t, i);
    assert IsSlot(s', t, i) && s'.table == s.table;
    forall q | Dirty(s', q) && q != o
      ensures Dirty(s, q)
    {
      CachedIffListed(s, q);
    }
  }

  // How many objects can be held

  /** The tags in the slots of a type, as objects. */
  function CachedObjects(s: State, t: nat): (xs: seq<GAddr>)
    requires HasBlock(s, t) && BlockShape(s.blocks[t])
    ensures |xs| == SLOT_COUNT
    ensures forall i :: 0 <= i < SLOT_COUNT ==> xs[i] == GAddr(t, SlotAt(s, t, i).tag)
  {
    seq(SLOT_COUNT, i requires 0 <= i < SLOT_COUNT => GAddr(t, SlotAt(s, t, i).tag))
  }

  /** Held objects are in different slots; a slot without references is lost to them. */
  lemma HeldAtMost(s: State, t: nat, idle: int)
    requires Inv(s) && HasBlock(s, t)
    requires IsSlot(s, t, idle) ==> Pins(s, t, idle) == 0
    ensures |Held(s, t)| <= SLOT_COUNT
    ensures IsSlot(s, t, idle) ==> |Held(s, t)| < SLOT_COUNT
  {
    hide InvHole, Quiescent, IsValid, Rc;
    BlockOf(s, t);
    var xs := CachedObjects(s, t);
    var ys := if IsSlot(s, t, idle) then xs[..idle] + xs[idle + 1..] else xs;
    forall o | o in Held(s, t)
      ensures o in ys
    {
      CachedIffListed(s, o);
      var i := s.table[o];
      assert o == xs[i] && i != idle;
      if IsSlot(s, t, idle) {
        assert xs[i] == ys[if i < idle then i else i - 1];
      }
    }
    ElementsSize(ys);
    SubsetSize(Held(s, t), (set y | y in ys));
  }

  /** With every slot referenced as many objects are held as there are slots. */
  lemma AllHeld(s: State, t: nat)
    requires Inv(s) && HasBlock(s, t) && forall i :: IsSlot(s, t, i) ==> Pins(s, t, i) > 0
    ensures |Held(s, t)| >= SLOT_COUNT
    ensures forall o :: o in s.table && o.typeId == t ==> o in Held(s, t)
  {
    hide InvHole, Quiescent, IsValid, Rc;
    BlockOf(s, t);
    var xs := CachedObjects(s, t);
    forall i | 0 <= i < SLOT_COUNT
      ensures xs[i] in Held(s, t) && xs[i] in s.table && s.table[xs[i]] == i
    {
      assert IsSlot(s, t, i);
      if !Live(s, t, i) {
        DeadHasNoPins(s, NoHole, t, i);
      }
      LiveIsObject(s, t, i);
    }
    ElementsSize(xs);
    SubsetSize((set x | x in xs), Held(s, t));
    forall o | o in s.table && o.typeId == t
      ensures o in Held(s, t)
    {
      CachedIffListed(s, o);
    }
  }

  /** Whether a request comes to an end: it hits, finds a free slot, or draws a
      victim some time. */
  ghost predicate Ends(s: State, b: GAddr, draws: nat -> nat, from: nat) {
    HasBlock(s, b.typeId) &&
    (b in s.table || s.blocks[b.typeId].free != [] || exists n :: from <= n && EndsAt(s, b.typeId, draws, n))
  }

  /** With draws in which every index recurs a request ends if and only if the
      objects held, with the one asked for, are no more than the slots. */
  lemma RequestEndsExactly(s: State, b: GAddr, draws: nat -> nat, from: nat)
    requires Inv(s) && b in s.objs && HasBlock(s, b.typeId) && Recurs(draws)
    ensures Ends(s, b, draws, from) <==> |Held(s, b.typeId) + {b}| <= 256
  {
    hide InvHole, Quiescent, IsValid, Rc, Recurs, Held, EndsAt;
    var t := b.typeId;
    CachedIffListed(s, b);
    BlockOf(s, t);
    if i :| IsSlot(s, t, i) && Pins(s, t, i) == 0 {
      HeldAtMost(s, t, i);
      if s.blocks[t].free == [] {
        LoopEndsExactly(s, t, draws, from);
      }
    } else {
      AllHeld(s, t);
      HeldAtMost(s, t, -1);
      if b in s.table {
        assert Held(s, t) + {b} == Held(s, t);
      } else {
        HeldIsListed(s, t);
        assert |Held(s, t) + {b}| == |Held(s, t)| + 1;
        if s.blocks[t].free == [] {
          LoopEndsExactly(s, t, draws, from);
        } else {
          FreeSlotOk(s, t);
          DeadHasNoPins(s, NoHole, t, s.blocks[t].free[0]);
        }
      }
    }
  }

  lemma HeldIsListed(s: State, t: nat)
    ensures forall o :: o in Held(s, t) ==> o in s.table
  {
  }
}
