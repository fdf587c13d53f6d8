/** The runtime is invisible: a client gets from the cache, whatever it evicts,
    exactly the answers of a flat memory, and is never left without a slot. */
module Transparency {
  import opened Bits
  import opened Addr
  import opened Alloc
  import opened SlotWord
  import opened CacheSpec
  import opened CacheRequest
  import opened Eviction
  import opened References
  import opened Sets
  import opened Machines
  import opened Simulation

  /** The victim is one that the evictor's compare-exchange would accept, in case
      it is needed. */
  predicate Chosen(c: Sys, op: Op, victim: int) {
    op.DoRequest? && HasBlock(c.s, op.g.typeId) && SizeOf(c.s, op.g.typeId) > 0
    && 0 < c.s.mem.pageSize < TWO_64 && op.g.offset < TWO_64
    ==> Servable(c.s, CacheBase(c.s, op.g), victim)
  }

  /** One step: memory safe, same answer, and the two machines stay related. */
  lemma StepSimulates(c: Sys, f: Flat, op: Op, victim: int)
    requires Sim(c, f) && FlatOk(f) && Legal(f, op) && Chosen(c, op, victim)
    ensures Enabled(c, op, victim)
    ensures Sim(Step(c, op, victim).0, FlatStep(f, op).0)
    ensures Step(c, op, victim).1 == FlatStep(f, op).1
  {
    hide Sim, View, Slice, Splice, Request, ExtractTag;
    match op
    case DoRegister(size) => SimRegister(c, f, size);
    case DoAlloc(t, size) => SimAlloc(c, f, t, size);
    case DoRequest(g) =>
      BaseAgrees(c, f, g);
      SimRequest(c, f, g, victim);
    case DoAccessMut(h) => SimMut(c, f, h);
    case DoLoad(h, at, n) => SimLoad(c, f, h, at, n);
    case DoStore(h, at, bs) => SimStore(c, f, h, at, bs);
    case DoFree(h) => SimFree(c, f, h);
  }

  // Runs

  /** The client keeps the rules at every step, all of them rules about flat memory. */
  ghost predicate LegalRun(f: Flat, ops: seq<Op>)
    requires FlatOk(f)
    decreases |ops|
  {
    ops != [] ==> Legal(f, ops[0]) && LegalRun(FlatStep(f, ops[0]).0, ops[1..])
  }

  ghost function FlatRun(f: Flat, ops: seq<Op>): (Flat, seq<Out>)
    requires FlatOk(f) && LegalRun(f, ops)
    decreases |ops|
  {
    if ops == [] then (f, [])
    else
      var (f1, out) := FlatStep(f, ops[0]);
      var (f2, outs) := FlatRun(f1, ops[1..]);
      (f2, [out] + outs)
  }

  /** Every request of the run gets a victim it can evict, if it needs one. */
  ghost predicate ChosenRun(c: Sys, ops: seq<Op>, victims: seq<int>)
    decreases |ops|
  {
    && |victims| == |ops|
    && (ops != [] ==>
          && Chosen(c, ops[0], victims[0])
          && (Enabled(c, ops[0], victims[0]) ==>
                ChosenRun(Step(c, ops[0], victims[0]).0, ops[1..], victims[1..])))
  }

  ghost predicate EnabledRun(c: Sys, ops: seq<Op>, victims: seq<int>)
    decreases |ops|
  {
    && |victims| == |ops|
    && (ops != [] ==>
          && Enabled(c, ops[0], victims[0])
          && EnabledRun(Step(c, ops[0], victims[0]).0, ops[1..], victims[1..]))
  }

  ghost function CacheRun(c: Sys, ops: seq<Op>, victims: seq<int>): (Sys, seq<Out>)
    requires EnabledRun(c, ops, victims)
    decreases |ops|
  {
    if ops == [] then (c, [])
    else
      var (c1, out) := Step(c, ops[0], victims[0]);
      var (c2, outs) := CacheRun(c1, ops[1..], victims[1..]);
      (c2, [out] + outs)
  }

  /** Transparency: over every run that a client may make, with every choice of
      victims, no access leaves its slot and every answer is that of flat memory. */
  lemma {:induction false} Transparent(c: Sys, f: Flat, ops: seq<Op>, victims: seq<int>)
    requires Sim(c, f) && FlatOk(f) && LegalRun(f, ops) && ChosenRun(c, ops, victims)
    ensures EnabledRun(c, ops, victims)
    ensures CacheRun(c, ops, victims).1 == FlatRun(f, ops).1
    ensures Sim(CacheRun(c, ops, victims).0, FlatRun(f, ops).0)
    decreases |ops|
  {
    hide Sim, Step, FlatStep, Legal, Chosen, Enabled;
    if ops != [] {
      StepSimulates(c, f, ops[0], victims[0]);
      Transparent(Step(c, ops[0], victims[0]).0, FlatStep(f, ops[0]).0, ops[1..], victims[1..]);
    }
  }

  // No request is left waiting

  /** If the objects a client holds of one type fit into the cache, a slot can be
      had for a further request of an object among them. */
  lemma NeverStuck(c: Sys, f: Flat, g: GAddr) returns (victim: int)
    requires Sim(c, f) && FlatOk(f) && Legal(f, DoRequest(g))
    ensures HasBlock(c.s, g.typeId) && Servable(c.s, BaseOf(f, g), victim)
  {
    hide Sim, ExtractTag, CompareExchangeValid;
    SimParts(c, f);
    BaseAgrees(c, f, g);
    var s, t, b := c.s, g.typeId, BaseOf(f, g);
    BlockOf(s, t);
    victim := 0;
    if b !in s.table && s.blocks[t].free == [] {
      if forall i :: 0 <= i < SLOT_COUNT ==> !Evictable(s, t, i) {
        AllPinned(c, f, b);
      } else {
        victim :| 0 <= victim < SLOT_COUNT && Evictable(s, t, victim);
      }
    }
  }

  lemma AllPinned(c: Sys, f: Flat, b: GAddr)
    requires Sim(c, f) && HasBlock(c.s, b.typeId) && BlockShape(c.s.blocks[b.typeId])
    requires b !in c.s.table && c.s.blocks[b.typeId].free == []
    requires forall i :: 0 <= i < SLOT_COUNT ==> !Evictable(c.s, b.typeId, i)
    ensures |PinnedObjects(f.refs, b.typeId) + {b}| > 256
  {
    hide Sim, Evictable, Quiescent, IsValid, InvHole, Rc, PinnedObjects;
    SimParts(c, f);
    var s, t := c.s, b.typeId;
    forall i | IsSlot(s, t, i)
      ensures Pins(s, t, i) > 0
    {
      EvictableIffUnpinned(s, t, i);
    }
    AllHeld(s, t);
    forall o | o in Held(s, t)
      ensures o in PinnedObjects(f.refs, t)
    {
      CachedIffListed(s, o);
      PinnedByClient(c, f, t, s.table[o]);
    }
    SubsetSize(Held(s, t) + {b}, PinnedObjects(f.refs, t) + {b});
  }

  lemma PinnedByClient(c: Sys, f: Flat, t: nat, i: int)
    requires Sim(c, f) && Live(c.s, t, i) && Pins(c.s, t, i) > 0
    ensures GAddr(t, SlotAt(c.s, t, i).tag) in PinnedObjects(f.refs, t)
  {
    hide Sim, Quiescent, IsValid, InvHole, Rc;
    SimParts(c, f);
    assert CountHeld(c.held, t, i) > 0;
    var k := CountWitness(c.held, t, i);
    TokenMatches(c, f, k);
    assert f.refs[k].live && f.refs[k].base == GAddr(t, SlotAt(c.s, t, i).tag);
  }

  /** Every legal run can be carried through: victims for it exist. */
  lemma {:induction false} RunCanBeServed(c: Sys, f: Flat, ops: seq<Op>) returns (victims: seq<int>)
    requires Sim(c, f) && FlatOk(f) && LegalRun(f, ops)
    ensures ChosenRun(c, ops, victims) && EnabledRun(c, ops, victims)
    decreases |ops|
  {
    hide Sim, Step, FlatStep, Legal, Chosen, Enabled;
    victims := [];
    if ops != [] {
      var victim := ChooseVictim(c, f, ops[0]);
      StepSimulates(c, f, ops[0], victim);
      var rest := RunCanBeServed(Step(c, ops[0], victim).0, FlatStep(f, ops[0]).0, ops[1..]);
      victims := [victim] + rest;
      assert victims[1..] == rest;
    }
  }

  lemma ChooseVictim(c: Sys, f: Flat, op: Op) returns (victim: int)
    requires Sim(c, f) && FlatOk(f) && Legal(f, op)
    ensures Chosen(c, op, victim)
  {
    hide Sim, ExtractTag, CompareExchangeValid;
    victim := 0;
    if op.DoRequest? {
      BaseAgrees(c, f, op.g);
      victim := NeverStuck(c, f, op.g);
    }
  }

  // From the start

  function InitFlat(mem: MemInfo, remote: seq<byte>): (f: Flat)
    ensures PoolOk(mem) && |remote| == UpperBound(mem) - mem.addr ==> FlatOk(f)
  {
    Flat(mem, [0, 0, 0], AllocState([[], [], []], mem.addr), {}, remote, [])
  }

  lemma InitSim(mem: MemInfo, remote: seq<byte>)
    requires PoolOk(mem) && |remote| == UpperBound(mem) - mem.addr
    ensures Sim(Sys(InitState(mem, remote), []), InitFlat(mem, remote))
  {
    InitInv(mem, remote);
    var s := InitState(mem, remote);
    assert forall t, i :: !IsSlot(s, t, i);
  }

  /** A fresh runtime over any pool contents answers every legal run as flat
      memory with these contents does. */
  lemma RuntimeIsInvisible(mem: MemInfo, remote: seq<byte>, ops: seq<Op>, victims: seq<int>)
    requires PoolOk(mem) && |remote| == UpperBound(mem) - mem.addr
    requires LegalRun(InitFlat(mem, remote), ops)
    requires ChosenRun(Sys(InitState(mem, remote), []), ops, victims)
    ensures EnabledRun(Sys(InitState(mem, remote), []), ops, victims)
    ensures CacheRun(Sys(InitState(mem, remote), []), ops, victims).1
         == FlatRun(InitFlat(mem, remote), ops).1
  {
    hide Sim, InitState, InitFlat, EnabledRun, ChosenRun, CacheRun, FlatRun, LegalRun;
    InitSim(mem, remote);
    Transparent(Sys(InitState(mem, remote), []), InitFlat(mem, remote), ops, victims);
  }

  // Pinning

  /** Tokens never change, and a freed token stays freed. */
  ghost predicate TokensKept(c: Sys, c': Sys) {
    && |c.held| <= |c'.held|
    && forall h :: 0 <= h < |c.held| ==>
         c'.held[h].token == c.held[h].token && (c'.held[h].live ==> c.held[h].live)
  }

  lemma {:induction false} RunKeepsTokens(c: Sys, ops: seq<Op>, victims: seq<int>)
    requires EnabledRun(c, ops, victims)
    ensures TokensKept(c, CacheRun(c, ops, victims).0)
    decreases |ops|
  {
    hide Enabled, Step;
    if ops != [] {
      StepKeepsTokens(c, ops[0], victims[0]);
      RunKeepsTokens(Step(c, ops[0], victims[0]).0, ops[1..], victims[1..]);
    }
  }

  lemma StepKeepsTokens(c: Sys, op: Op, victim: int)
    requires Enabled(c, op, victim)
    ensures TokensKept(c, Step(c, op, victim).0)
  {
    hide Request, ExtractTag, Inv;
  }

  /** Pin safety: from the request that returned it until it is freed, whatever
      the client does in between and whatever is evicted, a token stands for a
      valid, referenced slot that carries the token's tag. */
  lemma PinSafety(c: Sys, f: Flat, ops: seq<Op>, victims: seq<int>, h: nat)
    requires Sim(c, f) && FlatOk(f) && LegalRun(f, ops) && ChosenRun(c, ops, victims)
    requires h < |c.held|
    ensures EnabledRun(c, ops, victims)
    ensures var c', t := CacheRun(c, ops, victims).0, c.held[h].token;
      && h < |c'.held| && c'.held[h].token == t
      && (c'.held[h].live ==>
            && c.held[h].live && Live(c'.s, t.typeId, t.slotIndex) && Pins(c'.s, t.typeId, t.slotIndex) > 0
            && SlotAt(c'.s, t.typeId, t.slotIndex).tag == t.tag)
  {
    hide Sim, EnabledRun, ChosenRun, CacheRun, FlatRun, LegalRun;
    Transparent(c, f, ops, victims);
    RunKeepsTokens(c, ops, victims);
    var c', f' := CacheRun(c, ops, victims).0, FlatRun(f, ops).0;
    if c'.held[h].live {
      LiveToken(c', f', h);
    }
  }

  /** Where the pointer of a token points in the slot array of its type. */
  function Pointer(s: State, t: Token): int
    requires HasBlock(s, t.typeId)
  {
    t.slotIndex * SizeOf(s, t.typeId) + t.slotOff
  }

  /** Tokens of one object that are live together point into one slot, at the
      distance of the addresses they were requested for. */
  lemma PointersPreserveDistance(c: Sys, f: Flat, h: nat, k: nat)
    requires Sim(c, f) && h < |c.held| == |f.refs| && k < |c.held| && c.held[h].live && c.held[k].live
    requires f.refs[h].base == f.refs[k].base
    ensures var t, u := c.held[h].token, c.held[k].token;
      && t.slotIndex == u.slotIndex && t.typeId == u.typeId && HasBlock(c.s, t.typeId)
      && Pointer(c.s, t) - Pointer(c.s, u) == f.refs[h].off - f.refs[k].off
  {
    hide Sim;
    LiveToken(c, f, h);
    LiveToken(c, f, k);
    TokenMatches(c, f, h);
    TokenMatches(c, f, k);
  }

  // Isolation

  /** The type an operation works on; registration works on none that exists. */
  function TypeOf(c: Sys, op: Op): int {
    match op
    case DoRegister(_) => -1
    case DoAlloc(t, _) => t
    case DoRequest(g) => g.typeId
    case DoAccessMut(h) => if h < |c.held| then c.held[h].token.typeId else -1
    case DoLoad(h, _, _) => if h < |c.held| then c.held[h].token.typeId else -1
    case DoStore(h, _, _) => if h < |c.held| then c.held[h].token.typeId else -1
    case DoFree(h) => if h < |c.held| then c.held[h].token.typeId else -1
  }

  /** Isolation: an operation on one type leaves the slots, free list and
      reference counts, the table entries and the visible objects of every other
      type alone, although the table and remote memory are shared. */
  lemma TypesAreIsolated(c: Sys, f: Flat, op: Op, victim: int, o: GAddr)
    requires Sim(c, f) && FlatOk(f) && Legal(f, op) && Chosen(c, op, victim)
    requires HasBlock(c.s, o.typeId) && o.typeId != TypeOf(c, op)
    ensures Enabled(c, op, victim)
    ensures var s' := Step(c, op, victim).0.s;
      && o.typeId < |s'.blocks| && s'.blocks[o.typeId] == c.s.blocks[o.typeId]
      && (o in s'.table <==> o in c.s.table) && (o in c.s.table ==> s'.table[o] == c.s.table[o])
      && Inv(s') && (o in s'.objs <==> o in c.s.objs)
      && (o in c.s.objs ==> View(s')[o] == View(c.s)[o])
  {
    hide Sim, View, Slice, Splice, Request, ExtractTag, Allocate, Step, FlatStep, Enabled, Legal, Chosen, FlatOk;
    StepSimulates(c, f, op, victim);
    var c', f' := Step(c, op, victim).0, FlatStep(f, op).0;
    LegalAlloc(c, f, op);
    SimParts(c, f);
    SimParts(c', f');
    BlocksIsolated(c, op, victim, o);
    if o in c.s.objs {
      SeenInFlat(c.s, f, o);
      SeenInFlat(c'.s, f', o);
      BytesIsolated(c, f, op, o);
    }
  }

  lemma LegalAlloc(c: Sys, f: Flat, op: Op)
    requires Sim(c, f) && FlatOk(f) && Legal(f, op)
    ensures op.DoAlloc? ==> op.typeId < |c.s.blocks| && RealSize(c.s, op.typeId, op.size) > 0
                            && c.s.alloc.next + c.s.mem.pageSize < TWO_64
  {
    hide Sim;
    SimParts(c, f);
  }

  lemma SeenInFlat(s: State, f: Flat, o: GAddr)
    requires Inv(s) && SameTypes(s, f) && SameBytes(s, f) && o in s.objs
    ensures ObjOk(s, o) && f.mem == s.mem && o.offset - f.mem.addr + SizeOf(s, o.typeId) <= |f.bytes|
    ensures View(s)[o] == Slice(f.bytes, o.offset - f.mem.addr, SizeOf(s, o.typeId))
  {
    hide View, Slice, InvHole;
  }

  lemma BlocksIsolated(c: Sys, op: Op, victim: int, o: GAddr)
    requires Inv(c.s) && Enabled(c, op, victim)
    requires HasBlock(c.s, o.typeId) && o.typeId != TypeOf(c, op)
    requires op.DoAlloc? ==> op.typeId < |c.s.blocks| && RealSize(c.s, op.typeId, op.size) > 0
                             && c.s.alloc.next + c.s.mem.pageSize < TWO_64
    ensures var s' := Step(c, op, victim).0.s;
      && o.typeId < |s'.blocks| && s'.blocks[o.typeId] == c.s.blocks[o.typeId] && s'.mem == c.s.mem
      && (o in s'.table <==> o in c.s.table) && (o in c.s.table ==> s'.table[o] == c.s.table[o])
      && (o in s'.objs <==> o in c.s.objs)
  {
    hide Inv, View, Slice, Splice, Request, ExtractTag, Allocate;
    match op
    case DoRegister(size) =>
    case DoAlloc(t, size) => AllocObjectKeeps(c.s, t, size);
    case DoRequest(g) => RequestOtherTypes(c.s, CacheBase(c.s, g), victim, o);
    case DoAccessMut(h) =>
    case DoLoad(h, at, n) =>
    case DoStore(h, at, bs) =>
    case DoFree(h) =>
  }

  lemma BytesIsolated(c: Sys, f: Flat, op: Op, o: GAddr)
    requires Sim(c, f) && FlatOk(f) && Legal(f, op) && o in c.s.objs && ObjOk(c.s, o) && o.typeId != TypeOf(c, op)
    requires f.mem == c.s.mem && o.offset - f.mem.addr + SizeOf(c.s, o.typeId) <= |f.bytes|
    ensures var f' := FlatStep(f, op).0;
      && |f'.bytes| == |f.bytes|
      && Slice(f'.bytes, o.offset - f.mem.addr, SizeOf(c.s, o.typeId))
         == Slice(f.bytes, o.offset - f.mem.addr, SizeOf(c.s, o.typeId))
  {
    hide Sim, View, Slice, Splice, ExtractTag, Allocate, ObjOk, FlatStep, FlatOk, Legal, InRange;
    FlatBytes(f, op);
    if op.DoStore? {
      StoreIsolated(c, f, op.h, op.at, op.bs, o);
    }
  }

  lemma StoreIsolated(c: Sys, f: Flat, h: nat, at: int, bs: seq<byte>, o: GAddr)
    requires Sim(c, f) && FlatOk(f) && Legal(f, DoStore(h, at, bs))
    requires o in c.s.objs && ObjOk(c.s, o) && o.typeId != TypeOf(c, DoStore(h, at, bs))
    requires f.mem == c.s.mem && o.offset - f.mem.addr + SizeOf(c.s, o.typeId) <= |f.bytes|
    requires 0 <= At(f, f.refs[h], at) && At(f, f.refs[h], at) + |bs| <= |f.bytes|
    ensures Slice(Splice(f.bytes, At(f, f.refs[h], at), bs), o.offset - f.mem.addr, SizeOf(c.s, o.typeId))
         == Slice(f.bytes, o.offset - f.mem.addr, SizeOf(c.s, o.typeId))
  {
    hide Sim, View, Slice, Splice, FlatOk;
    ReachedBytes(c, f, h, at, |bs|);
    TokenMatches(c, f, h);
    SimParts(c, f);
    StoreAway(c.s, f.refs[h].base, o, f.refs[h].off + at, |bs|);
    SpliceSlices(f.bytes, At(f, f.refs[h], at), bs, o.offset - f.mem.addr, SizeOf(c.s, o.typeId));
  }

  /** Only a store changes flat memory. */
  lemma FlatBytes(f: Flat, op: Op)
    requires FlatOk(f) && Legal(f, op)
    ensures op.DoStore? ==>
      && 0 <= At(f, f.refs[op.h], op.at) && At(f, f.refs[op.h], op.at) + |op.bs| <= |f.bytes|
      && FlatStep(f, op).0.bytes == Splice(f.bytes, At(f, f.refs[op.h], op.at), op.bs)
    ensures !op.DoStore? ==> FlatStep(f, op).0.bytes == f.bytes
  {
    hide Splice, ExtractTag, Allocate, PoolOk, AllocOk;
  }

  /** A range inside one object does not meet another object. */
  lemma StoreAway(s: State, b: GAddr, o: GAddr, at: int, n: nat)
    requires ObjsOk(s) && b in s.objs && o in s.objs && b != o && HasBlock(s, b.typeId) && HasBlock(s, o.typeId)
    requires 0 <= at && at + n <= SizeOf(s, b.typeId)
    ensures o.offset + SizeOf(s, o.typeId) <= b.offset + at || b.offset + at + n <= o.offset
    ensures s.mem.addr <= o.offset
  {
    assert ObjOk(s, b) && ObjOk(s, o);
  }
}
