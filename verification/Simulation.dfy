/** The cached runtime simulates flat memory, one client operation at a time. */
module Simulation {
  import opened Bits
  import opened Addr
  import opened Alloc
  import opened SlotWord
  import opened CacheSpec
  import opened CacheInv
  import opened CacheRequest
  import opened References
  import opened Machines

  ghost predicate SameTypes(s: State, f: Flat) {
    && |f.sizes| == |s.blocks| && f.mem == s.mem && f.alloc == s.alloc && f.objs == s.objs
    && forall t :: HasBlock(s, t) && HasType(f, t) ==> f.sizes[t] == SizeOf(s, t)
  }

  /** The program sees in every object the bytes that flat memory has there. */
  ghost predicate SameBytes(s: State, f: Flat)
    requires ShapeOk(s) && ObjsOk(s) && TableOk(s) && SameTypes(s, f)
  {
    && |f.bytes| == |s.remote|
    && forall o :: o in s.objs ==>
         HasBlock(s, o.typeId) && 0 <= o.offset - s.mem.addr
         && o.offset - s.mem.addr + SizeOf(s, o.typeId) <= |f.bytes|
         && View(s)[o] == Slice(f.bytes, o.offset - s.mem.addr, SizeOf(s, o.typeId))
  }

  /** A token and what it stands for; while it is live its slot is valid and
      carries its tag, and is marked dirty once mutable access was taken. */
  ghost predicate Matches(s: State, h: Handle, r: Ref) {
    && h.live == r.live && h.mut == r.mut
    && h.token.typeId == r.base.typeId && h.token.tag == r.base.offset && h.token.slotOff == r.off
    && r.base in s.objs
    && (h.live ==>
          && Live(s, h.token.typeId, h.token.slotIndex)
          && SlotAt(s, h.token.typeId, h.token.slotIndex).tag == h.token.tag
          && (h.mut ==> SlotAt(s, h.token.typeId, h.token.slotIndex).dirty))
  }

  ghost predicate SameTokens(s: State, held: seq<Handle>, refs: seq<Ref>) {
    && |held| == |refs|
    && forall h :: 0 <= h < |held| ==> Matches(s, held[h], refs[h])
  }

  /** The reference count of a slot is the number of live tokens of that slot. */
  ghost predicate CountsOk(s: State, held: seq<Handle>) {
    forall t: nat, i :: IsSlot(s, t, i) ==> Pins(s, t, i) == CountHeld(held, t, i)
  }

  /** Memory that was not handed out yet has never been written. */
  ghost predicate SameFresh(s: State, f: Flat)
  {
    && |f.bytes| == |s.remote|
    && forall a :: 0 <= a < |s.remote| && s.alloc.next <= s.mem.addr + a ==> s.remote[a] == f.bytes[a]
  }

  ghost predicate Sim(c: Sys, f: Flat) {
    && Inv(c.s) && SameTypes(c.s, f) && SameBytes(c.s, f) && SameFresh(c.s, f)
    && SameTokens(c.s, c.held, f.refs) && CountsOk(c.s, c.held)
  }

  // Counting

  lemma CountAppend(held: seq<Handle>, h: Handle, t: nat, i: int)
    ensures CountHeld(held + [h], t, i)
         == CountHeld(held, t, i) + (if h.live && h.token.typeId == t && h.token.slotIndex == i then 1 else 0)
  {
    assert (held + [h])[..|held|] == held;
  }

  lemma {:induction false} CountUpdate(held: seq<Handle>, k: nat, h: Handle, t: nat, i: int)
    requires k < |held| && h.token == held[k].token
    ensures CountHeld(held[k := h], t, i)
         == CountHeld(held, t, i)
            + (if h.live && h.token.typeId == t && h.token.slotIndex == i then 1 else 0)
            - (if held[k].live && h.token.typeId == t && h.token.slotIndex == i then 1 else 0)
    decreases |held|
  {
    var n := |held| - 1;
    if k < n {
      assert held[k := h][..n] == held[..n][k := h];
      CountUpdate(held[..n], k, h, t, i);
    } else {
      assert held[k := h][..n] == held[..n];
    }
  }

  lemma {:induction false} CountPositive(held: seq<Handle>, k: nat, t: nat, i: int)
    requires k < |held| && held[k].live && held[k].token.typeId == t && held[k].token.slotIndex == i
    ensures CountHeld(held, t, i) > 0
    decreases |held|
  {
    if k < |held| - 1 {
      CountPositive(held[..|held| - 1], k, t, i);
    }
  }

  lemma {:induction false} CountWitness(held: seq<Handle>, t: nat, i: int) returns (k: nat)
    requires CountHeld(held, t, i) > 0
    ensures k < |held| && held[k].live && held[k].token.typeId == t && held[k].token.slotIndex == i
    decreases |held|
  {
    var n := |held| - 1;
    if held[n].live && held[n].token.typeId == t && held[n].token.slotIndex == i {
      k := n;
    } else {
      k := CountWitness(held[..n], t, i);
    }
  }

  /** A live token holds a reference, and its slot is where the table has its object. */
  lemma LiveToken(c: Sys, f: Flat, h: nat)
    requires Sim(c, f) && h < |c.held| && c.held[h].live
    ensures var t := c.held[h].token;
      && Live(c.s, t.typeId, t.slotIndex) && IsSlot(c.s, t.typeId, t.slotIndex)
      && SlotAt(c.s, t.typeId, t.slotIndex).tag == t.tag
      && (c.held[h].mut ==> SlotAt(c.s, t.typeId, t.slotIndex).dirty)
      && Pins(c.s, t.typeId, t.slotIndex) > 0
      && f.refs[h].base == GAddr(t.typeId, t.tag) && f.refs[h].base in c.s.table
      && c.s.table[f.refs[h].base] == t.slotIndex
  {
    hide View, Slice, Quiescent, IsValid, InvHole, Rc;
    assert Matches(c.s, c.held[h], f.refs[h]);
    var t := c.held[h].token;
    LiveIsObject(c.s, t.typeId, t.slotIndex);
    CountPositive(c.held, h, t.typeId, t.slotIndex);
  }

  /** The client's count of tokens of an object is the reference count of the slot. */
  lemma {:induction false} CountsAgree(c: Sys, f: Flat, b: GAddr, n: nat)
    requires Sim(c, f) && b in c.s.table && n <= |c.held| == |f.refs|
    ensures CountRefs(f.refs[..n], b) == CountHeld(c.held[..n], b.typeId, c.s.table[b])
  {
    hide View, Slice, Quiescent, IsValid, InvHole, Rc, Sim, Live;
    if n > 0 {
      CountsAgree(c, f, b, n - 1);
      assert f.refs[..n][..n - 1] == f.refs[..n - 1] && c.held[..n][..n - 1] == c.held[..n - 1];
      CountedAlike(c, f, b, n - 1);
    }
  }

  lemma CountedAlike(c: Sys, f: Flat, b: GAddr, k: nat)
    requires Sim(c, f) && b in c.s.table && k < |c.held| == |f.refs|
    ensures f.refs[k].live && f.refs[k].base == b
       <==> c.held[k].live && c.held[k].token.typeId == b.typeId && c.held[k].token.slotIndex == c.s.table[b]
  {
    hide View, Slice, Quiescent, IsValid, InvHole, Rc;
    assert Matches(c.s, c.held[k], f.refs[k]);
    if f.refs[k].live {
      LiveToken(c, f, k);
      ViewAt(c.s, b);
    }
  }

  lemma PinsAreRefs(c: Sys, f: Flat, b: GAddr)
    requires Sim(c, f) && b in c.s.table
    ensures IsSlot(c.s, b.typeId, c.s.table[b])
    ensures Pins(c.s, b.typeId, c.s.table[b]) == CountRefs(f.refs, b)
  {
    hide View, Slice, Quiescent, IsValid, InvHole, Rc;
    ViewAt(c.s, b);
    CountsAgree(c, f, b, |c.held|);
    assert f.refs[..|f.refs|] == f.refs && c.held[..|c.held|] == c.held;
  }

  // One step at a time

  lemma SimTypes(s: State, s': State, f: Flat, f': Flat)
    requires SameTypes(s, f) && SameFrame(s, s')
    requires |s'.blocks| == |s.blocks|
    requires f'.mem == f.mem && f'.sizes == f.sizes && f'.alloc == f.alloc && f'.objs == f.objs
    ensures SameTypes(s', f')
  {
    hide ShapeOk;
  }

  lemma SimBytes(s: State, s': State, f: Flat, f': Flat)
    requires ShapeOk(s) && ObjsOk(s) && TableOk(s) && SameTypes(s, f) && SameBytes(s, f)
    requires ShapeOk(s') && ObjsOk(s') && TableOk(s') && SameTypes(s', f') && SameFrame(s, s')
    requires View(s') == View(s) && f'.bytes == f.bytes
    ensures SameBytes(s', f')
  {
    hide ShapeOk, ObjsOk, TableOk, View, Slice;
  }

  /** Tokens survive an update of one slot that keeps it valid, under its tag. */
  lemma TouchedTokens(s: State, s': State, t: int, i: int, held: seq<Handle>, refs: seq<Ref>)
    requires Touched(s, s', t, i) && SameTokens(s, held, refs)
    ensures SameTokens(s', held, refs)
  {
    hide Quiescent, IsValid, SameFrame, SameFrees, OtherSlots, Matches;
    forall k | 0 <= k < |held|
      ensures Matches(s', held[k], refs[k])
    {
      TouchedToken(s, s', t, i, held[k], refs[k]);
    }
  }

  lemma TouchedToken(s: State, s': State, t: int, i: int, h: Handle, r: Ref)
    requires Touched(s, s', t, i) && Matches(s, h, r)
    ensures Matches(s', h, r)
  {
    hide Quiescent, IsValid, ShapeOk;
  }

  /** The base that the runtime computes with the page masks is that of the object
      which the address lies in. */
  lemma BaseAgrees(c: Sys, f: Flat, g: GAddr)
    requires Sim(c, f) && Known(f, g)
    ensures HasBlock(c.s, g.typeId) && SizeOf(c.s, g.typeId) > 0
    ensures 0 < c.s.mem.pageSize < TWO_64 && g.offset < TWO_64
    ensures CacheBase(c.s, g) == BaseOf(f, g) && BaseOf(f, g) in c.s.objs
  {
    hide Sim, InvHole, View, ExtractTag;
    SimParts(c, f);
    var b := BaseOf(f, g);
    ViewAt(c.s, b);
    AllocatorAndCacheAgree(c.s, g, b);
  }

  /** Requests: the new token matches, no old one is disturbed. */
  lemma SimRequest(c: Sys, f: Flat, g: GAddr, victim: int)
    requires Sim(c, f) && FlatOk(f) && Legal(f, DoRequest(g))
    requires HasBlock(c.s, g.typeId) && Servable(c.s, BaseOf(f, g), victim)
    ensures Enabled(c, DoRequest(g), victim)
    ensures var (c', out) := Step(c, DoRequest(g), victim);
      Sim(c', FlatStep(f, DoRequest(g)).0) && out == Done
  {
    hide Sim, View, Inv, Request, ExtractTag, CountRefs, PinnedObjects, Servable, TokenFor, Splice, Slice;
    hide Allocate, Register;
    SimParts(c, f);
    BaseAgrees(c, f, g);
    SimRequestAt(c, f, g, BaseOf(f, g), victim);
  }

  lemma SimRequestAt(c: Sys, f: Flat, g: GAddr, b: GAddr, victim: int)
    requires Sim(c, f) && b in c.s.objs && HasBlock(c.s, b.typeId) && Servable(c.s, b, victim)
    requires CountRefs(f.refs, b) + 1 < RC_LIMIT
    ensures var s' := Request(c.s, b, victim);
      Sim(Sys(s', c.held + [Handle(TokenFor(s', b, g), true, false)]),
          f.(refs := f.refs + [Ref(b, g.offset - b.offset, true, false)]))
  {
    hide View, Slice, Inv, Request, CountRefs, Matches, SameTypes, SameBytes, CountsOk, SameTokens, SameFresh;
    hide PinsAfter, Servable, SameFrame, ShapeOk, ObjsOk, TableOk, Pins;
    SimParts(c, f);
    var s, s' := c.s, Request(c.s, b, victim);
    var h, r := Handle(TokenFor(s', b, g), true, false), Ref(b, g.offset - b.offset, true, false);
    var f' := f.(refs := f.refs + [r]);
    if b in s.table {
      PinsAreRefs(c, f, b);
    }
    RequestKeeps(s, b, victim);
    RequestBlocks(s, b, victim);
    PinnedNow(s, s', b);
    assert SameTypes(s', f') by { SimTypes(s, s', f, f'); }
    assert SameBytes(s', f') by { SimBytes(s, s', f, f'); }
    assert SameTokens(s', c.held + [h], f'.refs) by {
      SimRequestTokens(c, f, b, victim);
      NewToken(s', c.held, f.refs, h, r, b);
    }
    assert CountsOk(s', c.held + [h]) by { SimRequestCounts(c, s', b, h); }
    assert SameFresh(s', f') by { SimRequestFresh(s, f, f', b, victim); }
  }

  lemma PinnedNow(s: State, s': State, b: GAddr)
    requires PinsAfter(s, s', b)
    ensures b in s'.table && Live(s', b.typeId, s'.table[b]) && SlotAt(s', b.typeId, s'.table[b]).tag == b.offset
  {
  }

  lemma NewToken(s: State, held: seq<Handle>, refs: seq<Ref>, h: Handle, r: Ref, b: GAddr)
    requires SameTokens(s, held, refs)
    requires b in s.objs && b in s.table && Live(s, b.typeId, s.table[b])
    requires SlotAt(s, b.typeId, s.table[b]).tag == b.offset
    requires h.live && !h.mut && h.token == Token(b.offset, b.typeId, s.table[b], r.off)
    requires r == Ref(b, r.off, true, false)
    ensures SameTokens(s, held + [h], refs + [r])
  {
  }

  lemma SimRequestFresh(s: State, f: Flat, f': Flat, b: GAddr, victim: int)
    requires Inv(s) && b in s.objs && HasBlock(s, b.typeId) && Servable(s, b, victim) && SameFresh(s, f)
    requires SameFrame(s, Request(s, b, victim)) && f'.bytes == f.bytes
    ensures SameFresh(Request(s, b, victim), f')
  {
    hide View, Slice, Quiescent, IsValid, InvHole, Rc, Request;
    var s' := Request(s, b, victim);
    forall a | 0 <= a < |s'.remote| && s'.alloc.next <= s'.mem.addr + a
      ensures s'.remote[a] == f.bytes[a]
    {
      RequestRemote(s, b, victim, a);
      if s'.remote[a] != s.remote[a] {
        LiveIsObject(s, b.typeId, victim);
      }
    }
  }

  lemma SimRequestTokens(c: Sys, f: Flat, b: GAddr, victim: int)
    requires Sim(c, f) && b in c.s.objs && HasBlock(c.s, b.typeId) && Servable(c.s, b, victim)
    requires b in c.s.table ==> Pins(c.s, b.typeId, c.s.table[b]) + 1 < RC_LIMIT
    ensures b in c.s.objs && SameTokens(Request(c.s, b, victim), c.held, f.refs)
  {
    hide View, Slice, Quiescent, IsValid, InvHole, Rc, Request;
    RequestKeeps(c.s, b, victim);
    var s' := Request(c.s, b, victim);
    forall h | 0 <= h < |c.held|
      ensures Matches(s', c.held[h], f.refs[h])
    {
      assert Matches(c.s, c.held[h], f.refs[h]);
      if c.held[h].live {
        LiveToken(c, f, h);
        RequestPinSafety(c.s, b, victim, c.held[h].token.typeId, c.held[h].token.slotIndex);
      }
    }
  }

  lemma SimRequestCounts(c: Sys, s': State, b: GAddr, h: Handle)
    requires CountsOk(c.s, c.held) && SameFrame(c.s, s') && PinsAfter(c.s, s', b)
    requires h.live && h.token.typeId == b.typeId && h.token.slotIndex == s'.table[b]
    ensures CountsOk(s', c.held + [h])
  {
    hide IsValid, Rc, ShapeOk, CountHeld;
    forall t: nat, i | IsSlot(s', t, i)
      ensures Pins(s', t, i) == CountHeld(c.held + [h], t, i)
    {
      CountAppend(c.held, h, t, i);
    }
  }

  /** Counts after one slot changed, for the tokens in which handle h changed. */
  lemma TouchedCounts(s: State, s': State, held: seq<Handle>, h: nat, h': Handle)
    requires h < |held| && h'.token == held[h].token && CountsOk(s, held)
    requires IsSlot(s, h'.token.typeId, h'.token.slotIndex) && SameFrame(s, s')
    requires OtherSlots(s, s', h'.token.typeId, h'.token.slotIndex)
    requires Pins(s', h'.token.typeId, h'.token.slotIndex)
          == Pins(s, h'.token.typeId, h'.token.slotIndex)
             + (if h'.live then 1 else 0) - (if held[h].live then 1 else 0)
    ensures CountsOk(s', held[h := h'])
  {
    hide IsValid, Rc, ShapeOk, CountHeld;
    forall u: nat, i | IsSlot(s', u, i)
      ensures Pins(s', u, i) == CountHeld(held[h := h'], u, i)
    {
      CountUpdate(held, h, h', u, i);
    }
  }

  /** Metadata of the slot of a live token changes: count, dirty bit. */
  lemma SimSlot(c: Sys, f: Flat, h: nat, m: Slot, h': Handle, r': Ref)
    requires Sim(c, f) && h < |c.held| && c.held[h].live
    requires IsSlot(c.s, c.held[h].token.typeId, c.held[h].token.slotIndex)
    requires var t := c.held[h].token;
      var was := SlotAt(c.s, t.typeId, t.slotIndex);
      && m.tag == was.tag && (was.dirty ==> m.dirty) && (h'.mut ==> m.dirty)
      && Quiescent(m.word) && IsValid(m.word)
      && h'.token == t && r'.base == f.refs[h].base && r'.off == f.refs[h].off
      && h'.live == r'.live && h'.mut == r'.mut
      && Rc(m.word) == Rc(was.word) + (if h'.live then 1 else 0) - 1
    ensures Sim(Sys(SetSlot(c.s, c.held[h].token.typeId, c.held[h].token.slotIndex, m), c.held[h := h']),
                f.(refs := f.refs[h := r']))
  {
    hide View, Slice, Quiescent, IsValid, InvHole, Rc, CountHeld, SameTypes, SameBytes, CountsOk, Matches;
    var s, t := c.s, c.held[h].token;
    var s', f' := SetSlot(s, t.typeId, t.slotIndex, m), f.(refs := f.refs[h := r']);
    LiveToken(c, f, h);
    SetSlotKeeps(s, t.typeId, t.slotIndex, m);
    SetSlotReads(s, t.typeId, t.slotIndex, m);
    SimTypes(s, s', f, f');
    SimBytes(s, s', f, f');
    TouchedCounts(s, s', c.held, h, h');
    TouchedTokens(s, s', t.typeId, t.slotIndex, c.held, f.refs);
    assert Matches(s', h', r') by { MatchesAgain(s', c.held[h], h', f.refs[h], r'); }
  }

  lemma MatchesAgain(s: State, h: Handle, h': Handle, r: Ref, r': Ref)
    requires Matches(s, h, r) && h.live && h'.token == h.token && r'.base == r.base && r'.off == r.off
    requires h'.live == r'.live && h'.mut == r'.mut
    requires h'.mut ==> IsSlot(s, h.token.typeId, h.token.slotIndex)
                        && SlotAt(s, h.token.typeId, h.token.slotIndex).dirty
    ensures Matches(s, h', r')
  {
  }

  lemma SimMut(c: Sys, f: Flat, h: nat)
    requires Sim(c, f) && FlatOk(f) && Legal(f, DoAccessMut(h))
    ensures Enabled(c, DoAccessMut(h), 0)
    ensures var (c', out) := Step(c, DoAccessMut(h), 0);
      Sim(c', FlatStep(f, DoAccessMut(h)).0) && out == Done
  {
    hide View, Slice, Quiescent, IsValid, InvHole, Rc, SameTypes, SameBytes, CountsOk;
    assert Matches(c.s, c.held[h], f.refs[h]);
    LiveToken(c, f, h);
    var t := c.held[h].token;
    LiveIsObject(c.s, t.typeId, t.slotIndex);
    SimSlot(c, f, h, SlotAt(c.s, t.typeId, t.slotIndex).(dirty := true),
            c.held[h].(mut := true), f.refs[h].(mut := true));
  }

  lemma SimFree(c: Sys, f: Flat, h: nat)
    requires Sim(c, f) && FlatOk(f) && Legal(f, DoFree(h))
    ensures Enabled(c, DoFree(h), 0)
    ensures var (c', out) := Step(c, DoFree(h), 0);
      Sim(c', FlatStep(f, DoFree(h)).0) && out == Done
  {
    hide View, Slice, Quiescent, IsValid, InvHole, Rc, SameTypes, SameBytes, CountsOk;
    assert Matches(c.s, c.held[h], f.refs[h]);
    LiveToken(c, f, h);
    var t := c.held[h].token;
    var m := SlotAt(c.s, t.typeId, t.slotIndex);
    LiveIsObject(c.s, t.typeId, t.slotIndex);
    QuiescentSteps(m.word);
    SimSlot(c, f, h, m.(word := Decrement(m.word)), c.held[h].(live := false), f.refs[h].(live := false));
  }

  lemma TokenMatches(c: Sys, f: Flat, h: nat)
    requires Sim(c, f) && h < |f.refs|
    ensures h < |c.held| == |f.refs| && Matches(c.s, c.held[h], f.refs[h])
  {
    hide View, Slice, InvHole, CountsOk, SameFresh, Matches;
  }

  /** The bytes a token's pointer reaches are those of flat memory. */
  lemma ReachedBytes(c: Sys, f: Flat, h: nat, at: int, n: nat)
    requires Sim(c, f) && FlatOk(f) && h < |f.refs| && f.refs[h].live && InRange(f, f.refs[h], at, n)
    ensures Reaches(c, h, at, n)
    ensures var t, r := c.held[h].token, f.refs[h];
      && r.base in c.s.objs && r.base.offset - f.mem.addr + SizeOf(c.s, t.typeId) <= |f.bytes|
      && |Bytes(c.s, t.typeId, t.slotIndex)| == SizeOf(c.s, t.typeId)
      && 0 <= At(f, r, at) && At(f, r, at) + n <= |f.bytes|
      && At(f, r, at) == r.base.offset - f.mem.addr + (t.slotOff + at)
      && View(c.s)[r.base] == Bytes(c.s, t.typeId, t.slotIndex)
      && Bytes(c.s, t.typeId, t.slotIndex)
         == Slice(f.bytes, r.base.offset - f.mem.addr, SizeOf(c.s, t.typeId))
      && Slice(Bytes(c.s, t.typeId, t.slotIndex), t.slotOff + at, n) == Slice(f.bytes, At(f, r, at), n)
  {
    hide View, Slice, Quiescent, IsValid, InvHole, Rc, CountsOk, SameTokens, SameFresh, ObjsOk, TableOk;
    TokenMatches(c, f, h);
    LiveToken(c, f, h);
    var t, r := c.held[h].token, f.refs[h];
    assert r.off == t.slotOff;
    ViewAt(c.s, r.base);
    BlockOf(c.s, t.typeId);
    SliceOfSlice(f.bytes, r.base.offset - f.mem.addr, SizeOf(c.s, t.typeId), t.slotOff + at, n);
  }

  lemma SimLoad(c: Sys, f: Flat, h: nat, at: int, n: nat)
    requires Sim(c, f) && FlatOk(f) && Legal(f, DoLoad(h, at, n))
    ensures Enabled(c, DoLoad(h, at, n), 0)
    ensures var (c', out) := Step(c, DoLoad(h, at, n), 0);
      c' == c && (f, out) == FlatStep(f, DoLoad(h, at, n))
  {
    hide Sim;
    ReachedBytes(c, f, h, at, n);
  }

  lemma SimStore(c: Sys, f: Flat, h: nat, at: int, bs: seq<byte>)
    requires Sim(c, f) && FlatOk(f) && Legal(f, DoStore(h, at, bs))
    ensures Enabled(c, DoStore(h, at, bs), 0)
    ensures var (c', out) := Step(c, DoStore(h, at, bs), 0);
      Sim(c', FlatStep(f, DoStore(h, at, bs)).0) && out == Done
  {
    hide Sim, Store, Splice, Slice, View;
    ReachedBytes(c, f, h, at, |bs|);
    TokenMatches(c, f, h);
    SimStoreAt(c, f, h, c.held[h].token.slotOff + at, bs);
  }

  lemma SimStoreAt(c: Sys, f: Flat, h: nat, at: int, bs: seq<byte>)
    requires Sim(c, f) && h < |c.held| == |f.refs| && c.held[h].live && c.held[h].mut
    requires Matches(c.s, c.held[h], f.refs[h])
    requires 0 <= at && at + |bs| <= SizeOf(c.s, c.held[h].token.typeId)
    requires 0 <= f.refs[h].base.offset - f.mem.addr
    requires f.refs[h].base.offset - f.mem.addr + SizeOf(c.s, c.held[h].token.typeId) <= |f.bytes|
    ensures var t := c.held[h].token;
      && |Bytes(c.s, t.typeId, t.slotIndex)| == SizeOf(c.s, t.typeId)
      && Sim(c.(s := Store(c.s, t.typeId, t.slotIndex, at, bs)),
             f.(bytes := Splice(f.bytes, f.refs[h].base.offset - f.mem.addr + at, bs)))
  {
    hide View, Slice, Splice, Store, InvHole, Matches, Touched, SameBytes, SameTypes, CountsOk, SameTokens, SameFresh;
    LiveToken(c, f, h);
    var s, t, o := c.s, c.held[h].token, f.refs[h].base;
    StoreSlot(s, t.typeId, t.slotIndex, at, bs);
    var s' := Store(s, t.typeId, t.slotIndex, at, bs);
    var f' := f.(bytes := Splice(f.bytes, o.offset - f.mem.addr + at, bs));
    assert SameTypes(s', f') && SameBytes(s', f') by {
      TouchedFrame(s, s', t.typeId, t.slotIndex);
      StoredBytes(s, s', f, o, at, bs);
    }
    TouchedTokens(s, s', t.typeId, t.slotIndex, c.held, f.refs);
    assert SameFresh(s', f') by {
      TouchedFrame(s, s', t.typeId, t.slotIndex);
      SameMem(s, f);
      StoredFresh(s, s', f, o, at, bs);
    }
    assert CountsOk(s', c.held) by {
      TouchedFrame(s, s', t.typeId, t.slotIndex);
      TouchedCounts(s, s', c.held, h, c.held[h]);
      assert c.held[h := c.held[h]] == c.held;
    }
  }

  lemma TouchedFrame(s: State, s': State, t: int, i: int)
    requires Touched(s, s', t, i)
    ensures SameFrame(s, s') && OtherSlots(s, s', t, i)
    ensures s'.remote == s.remote && s'.alloc == s.alloc && s'.mem == s.mem
  {
    hide Live, Quiescent, OtherSlots;
  }

  lemma SameMem(s: State, f: Flat)
    requires SameTypes(s, f)
    ensures f.mem == s.mem
  {
  }

  /** A store through a dirty slot, as the relations above need it. */
  lemma StoreSlot(s: State, t: nat, i: int, at: int, bs: seq<byte>)
    requires Inv(s) && Live(s, t, i) && SlotAt(s, t, i).dirty && 0 <= at && at + |bs| <= SizeOf(s, t)
    ensures |Bytes(s, t, i)| == SizeOf(s, t)
    ensures var o, s' := GAddr(t, SlotAt(s, t, i).tag), Store(s, t, i, at, bs);
      && Inv(s') && o in s.objs && ObjOk(s, o) && |View(s)[o]| == SizeOf(s, t)
      && View(s') == View(s)[o := Splice(View(s)[o], at, bs)]
      && Touched(s, s', t, i) && |s'.blocks| == |s.blocks| && SlotAt(s', t, i) == SlotAt(s, t, i)
      && s'.alloc == s.alloc && s'.mem == s.mem
  {
    hide View, Slice, Splice, Quiescent, IsValid, InvHole, Rc;
    StoreKeeps(s, t, i, at, bs);
    SetBytesReads(s, t, i, Splice(Bytes(s, t, i), at, bs));
    LiveIsObject(s, t, i);
    ViewAt(s, GAddr(t, SlotAt(s, t, i).tag));
  }

  lemma StoredFresh(s: State, s': State, f: Flat, o: GAddr, at: int, bs: seq<byte>)
    requires SameFresh(s, f) && f.mem == s.mem && ObjOk(s, o)
    requires s'.remote == s.remote && s'.alloc == s.alloc && s'.mem == s.mem
    requires 0 <= at && at + |bs| <= SizeOf(s, o.typeId)
    requires o.offset - f.mem.addr + at + |bs| <= |f.bytes|
    ensures SameFresh(s', f.(bytes := Splice(f.bytes, o.offset - f.mem.addr + at, bs)))
  {
  }

  /** Storing into the view of an object is storing into its range of flat memory. */
  lemma StoredBytes(s: State, s': State, f: Flat, o: GAddr, at: int, bs: seq<byte>)
    requires ShapeOk(s) && ObjsOk(s) && TableOk(s) && SameTypes(s, f) && SameBytes(s, f)
    requires ShapeOk(s') && ObjsOk(s') && TableOk(s') && SameFrame(s, s') && |s'.blocks| == |s.blocks|
    requires o in s.objs && HasBlock(s, o.typeId) && 0 <= at && at + |bs| <= SizeOf(s, o.typeId)
    requires |View(s)[o]| == SizeOf(s, o.typeId)
    requires View(s') == View(s)[o := Splice(View(s)[o], at, bs)]
    requires 0 <= o.offset - f.mem.addr + at && o.offset - f.mem.addr + at + |bs| <= |f.bytes|
    ensures var f' := f.(bytes := Splice(f.bytes, o.offset - f.mem.addr + at, bs));
      SameTypes(s', f') && SameBytes(s', f')
  {
    hide View, Slice, Splice, ShapeOk, TableOk, ObjsOk;
    assert ObjsApart(s) by { ApartObjects(s); }
    var f' := f.(bytes := Splice(f.bytes, o.offset - f.mem.addr + at, bs));
    forall q | q in s'.objs
      ensures View(s')[q] == Slice(f'.bytes, q.offset - s.mem.addr, SizeOf(s, q.typeId))
    {
      StoredObject(s, f, o, at, bs, q);
    }
  }

  lemma StoredObject(s: State, f: Flat, o: GAddr, at: int, bs: seq<byte>, q: GAddr)
    requires ShapeOk(s) && ObjsOk(s) && TableOk(s) && SameTypes(s, f) && SameBytes(s, f) && ObjsApart(s)
    requires o in s.objs && HasBlock(s, o.typeId) && 0 <= at && at + |bs| <= SizeOf(s, o.typeId)
    requires |View(s)[o]| == SizeOf(s, o.typeId)
    requires 0 <= o.offset - f.mem.addr + at && o.offset - f.mem.addr + at + |bs| <= |f.bytes|
    requires q in s.objs
    ensures ObjOk(s, q) && q.offset - s.mem.addr + SizeOf(s, q.typeId) <= |f.bytes|
    ensures Slice(Splice(f.bytes, o.offset - f.mem.addr + at, bs), q.offset - s.mem.addr, SizeOf(s, q.typeId))
         == if q == o then Splice(View(s)[o], at, bs) else View(s)[q]
  {
    hide View, Slice, Splice, ShapeOk, TableOk, ObjsOk;
    ViewAt(s, q);
    ViewAt(s, o);
    if q == o {
      SpliceInside(f.bytes, o.offset - f.mem.addr, SizeOf(s, o.typeId), at, bs);
    } else {
      SpliceSlices(f.bytes, o.offset - f.mem.addr + at, bs, q.offset - s.mem.addr, SizeOf(s, q.typeId));
    }
  }

  ghost predicate ObjsApart(s: State) {
    forall o, q :: o in s.objs && q in s.objs && o != q ==>
      o.offset + s.mem.pageSize <= q.offset || q.offset + s.mem.pageSize <= o.offset
  }

  lemma ApartObjects(s: State)
    requires ObjsOk(s)
    ensures ObjsApart(s)
  {
  }

  lemma SimAlloc(c: Sys, f: Flat, t: nat, size: nat)
    requires Sim(c, f) && FlatOk(f) && Legal(f, DoAlloc(t, size))
    ensures Enabled(c, DoAlloc(t, size), 0)
    ensures var (c', out) := Step(c, DoAlloc(t, size), 0);
      Sim(c', FlatStep(f, DoAlloc(t, size)).0) && out == FlatStep(f, DoAlloc(t, size)).1
  {
    hide Sim, Allocate, View, Slice;
    assert SameTypes(c.s, f) && Inv(c.s) by { SimParts(c, f); }
    assert RealSize(c.s, t, size) == if t < RESERVED_TYPES then size else f.sizes[t];
    SimAllocAt(c, f, t, size);
  }

  lemma SimParts(c: Sys, f: Flat)
    requires Sim(c, f)
    ensures Inv(c.s) && SameTypes(c.s, f) && SameBytes(c.s, f) && SameFresh(c.s, f)
    ensures SameTokens(c.s, c.held, f.refs) && CountsOk(c.s, c.held)
  {
    hide InvHole, SameTypes, SameBytes, SameFresh, SameTokens, CountsOk;
  }

  lemma SimAllocAt(c: Sys, f: Flat, t: nat, size: nat)
    requires Sim(c, f) && t < |c.s.blocks| && RealSize(c.s, t, size) > 0
    requires |c.s.blocks| == |c.s.alloc.chunks| && c.s.mem.pageSize > 0
    requires c.s.alloc.next + c.s.mem.pageSize < TWO_64
    ensures var (s', r) := AllocObject(c.s, t, size);
      Sim(c.(s := s'), f.(alloc := s'.alloc, objs := s'.objs))
  {
    hide View, Slice, InvHole, Allocate, AllocObject, Matches, SameTypes, SameBytes, CountsOk, SameTokens;
    hide SameFresh, ShapeOk, ObjsOk, TableOk;
    var s, s' := c.s, AllocObject(c.s, t, size).0;
    var f' := f.(alloc := s'.alloc, objs := s'.objs);
    SimParts(c, f);
    AllocObjectKeeps(s, t, size);
    assert SameTypes(s', f') by { AllocTypes(s, s', f, f'); }
    assert SameBytes(s', f') by { AllocBytes(c, f, s', f'); }
    assert SameFresh(s', f') by { AllocFresh(s, s', f, f'); }
    assert SameTokens(s', c.held, f'.refs) by { GrownTokens(s, s', c.held, f.refs); }
    assert CountsOk(s', c.held) by { SameSlotCounts(s, s', c.held); }
  }

  lemma AllocTypes(s: State, s': State, f: Flat, f': Flat)
    requires SameTypes(s, f) && s'.blocks == s.blocks && s'.mem == s.mem
    requires f' == f.(alloc := s'.alloc, objs := s'.objs)
    ensures SameTypes(s', f')
  {
  }

  lemma AllocFresh(s: State, s': State, f: Flat, f': Flat)
    requires SameFresh(s, f) && s'.remote == s.remote && s'.mem == s.mem && s.alloc.next <= s'.alloc.next
    requires f'.bytes == f.bytes
    ensures SameFresh(s', f')
  {
  }

  lemma AllocBytes(c: Sys, f: Flat, s': State, f': Flat)
    requires Sim(c, f) && ShapeOk(s') && ObjsOk(s') && TableOk(s') && SameTypes(s', f')
    requires s'.blocks == c.s.blocks && s'.table == c.s.table && s'.remote == c.s.remote && s'.mem == c.s.mem
    requires c.s.objs <= s'.objs && f'.bytes == f.bytes
    requires forall o :: o in s'.objs && o !in c.s.objs ==> o.offset >= c.s.alloc.next
    requires forall o :: o in c.s.objs ==> View(s')[o] == View(c.s)[o]
    ensures SameBytes(s', f')
  {
    hide View, Slice, Inv, ShapeOk, TableOk, SameFresh, SameTokens, CountsOk, AllocOk, ObjOk;
    assert SameBytes(c.s, f) && ObjsOk(c.s);
    forall o | o in s'.objs
      ensures HasBlock(s', o.typeId) && 0 <= o.offset - s'.mem.addr
      ensures o.offset - s'.mem.addr + SizeOf(s', o.typeId) <= |f'.bytes|
      ensures View(s')[o] == Slice(f'.bytes, o.offset - s'.mem.addr, SizeOf(s', o.typeId))
    {
      assert ObjOk(s', o);
      ObjectInPool(s', o);
      if o !in c.s.objs {
        NewObjectBytes(c, f, s', o);
      }
    }
  }

  lemma ObjectInPool(s: State, o: GAddr)
    requires ObjOk(s, o) && ShapeOk(s)
    ensures HasBlock(s, o.typeId) && 0 <= o.offset - s.mem.addr
    ensures o.offset - s.mem.addr + SizeOf(s, o.typeId) <= |s.remote|
  {
  }

  lemma GrownTokens(s: State, s': State, held: seq<Handle>, refs: seq<Ref>)
    requires SameTokens(s, held, refs) && s'.blocks == s.blocks && s.objs <= s'.objs
    ensures SameTokens(s', held, refs)
  {
    forall k | 0 <= k < |held|
      ensures Matches(s', held[k], refs[k])
    {
      assert Matches(s, held[k], refs[k]);
    }
  }

  lemma SameSlotCounts(s: State, s': State, held: seq<Handle>)
    requires CountsOk(s, held) && s'.blocks == s.blocks
    ensures CountsOk(s', held)
  {
    hide Rc;
    assert forall t: nat, i :: IsSlot(s', t, i) ==> IsSlot(s, t, i) && Pins(s', t, i) == Pins(s, t, i);
  }

  /** A new object starts with the bytes that flat memory has there. */
  lemma NewObjectBytes(c: Sys, f: Flat, s': State, o: GAddr)
    requires Sim(c, f) && o in s'.objs && o !in c.s.objs && o.offset >= c.s.alloc.next
    requires ShapeOk(s') && ObjsOk(s') && TableOk(s')
    requires s'.table == c.s.table && s'.remote == c.s.remote && s'.mem == c.s.mem && s'.blocks == c.s.blocks
    ensures ObjOk(s', o) && o.offset - s'.mem.addr + SizeOf(s', o.typeId) <= |f.bytes|
    ensures View(s')[o] == Slice(f.bytes, o.offset - s'.mem.addr, SizeOf(s', o.typeId))
  {
    hide View, Quiescent, IsValid, Rc, CountHeld, ShapeOk, ObjsOk, CountsOk, SameTokens;
    ViewAt(s', o);
    NotCached(c.s, o);
  }

  lemma NotCached(s: State, o: GAddr)
    requires TableOk(s) && o !in s.objs
    ensures o !in s.table
  {
  }

  lemma SimRegister(c: Sys, f: Flat, size: nat)
    requires Sim(c, f) && FlatOk(f) && Legal(f, DoRegister(size))
    ensures Enabled(c, DoRegister(size), 0)
    ensures var (c', out) := Step(c, DoRegister(size), 0);
      Sim(c', FlatStep(f, DoRegister(size)).0) && out == FlatStep(f, DoRegister(size)).1
  {
    hide View, Slice, Quiescent, IsValid, InvHole, Rc, CountHeld;
    var s := c.s;
    RegisterKeeps(s, size);
    if |s.blocks| < MAX_TYPES {
      RegisterReads(s, size);
      var s', f' := Register(s, size).0, FlatStep(f, DoRegister(size)).0;
      assert SameTypes(s', f');
      forall o | o in s'.objs
        ensures HasBlock(s', o.typeId) && SizeOf(s', o.typeId) == SizeOf(s, o.typeId)
      {
        assert ObjOk(s, o);
      }
      forall k | 0 <= k < |c.held|
        ensures Matches(s', c.held[k], f'.refs[k])
      {
        assert Matches(s, c.held[k], f.refs[k]);
      }
      assert CountsOk(s', c.held) by { RegisterCounts(c, f, size); }
    }
  }

  lemma RegisterCounts(c: Sys, f: Flat, size: nat)
    requires Sim(c, f) && |c.s.blocks| < MAX_TYPES
    ensures CountsOk(Register(c.s, size).0, c.held)
  {
    hide View, Slice, Quiescent, IsValid, InvHole, Rc;
    var s' := Register(c.s, size).0;
    RegisterReads(c.s, size);
    forall t: nat, i | IsSlot(s', t, i)
      ensures Pins(s', t, i) == CountHeld(c.held, t, i)
    {
      if !IsSlot(c.s, t, i) {
        ClearWord();
        if CountHeld(c.held, t, i) > 0 {
          var k := CountWitness(c.held, t, i);
          LiveToken(c, f, k);
        }
      }
    }
  }
}
