/** A client of the runtime: whole programs run on the compute context and get the
    answers of flat memory. */
module Client {
  import opened Bits
  import opened Addr
  import opened SlotWord
  import opened CacheSpec
  import opened CacheRequest
  import opened Eviction
  import opened Machines
  import opened Simulation
  import opened Transparency
  import opened Context

  /** The context and the tokens the client holds of it stand for a flat memory. */
  ghost predicate Works(c: ComputeContext, held: seq<Handle>, f: Flat)
    reads c, c.Repr
    ensures Works(c, held, f) ==> c.Valid()
  {
    c.Valid() && Recurs(c.draws) && FlatOk(f) && Sim(Sys(c.State(), held), f)
  }

  /** What a call left and answered is a step of the cached system. */
  ghost predicate Steps(c: Sys, c': Sys, op: Op, out: Out) {
    exists victim :: Chosen(c, op, victim) && Enabled(c, op, victim) && Step(c, op, victim) == (c', out)
  }

  /** A request, with a token that leads to the object. */
  method Request(c: ComputeContext, held: seq<Handle>, g: GAddr, ghost f: Flat) returns (held': seq<Handle>)
    requires Works(c, held, f) && Legal(f, DoRequest(g))
    modifies c.Repr
    ensures c.Valid() && c.Repr == old(c.Repr)
    ensures Steps(Sys(old(c.State()), held), Sys(c.State(), held'), DoRequest(g), Done)
  {
    hide ComputeContext.HeapOk, ComputeContext.State, ComputeContext.NoneEvictable, InvHole, Sim;
    hide CacheSpec.Request, View, Recurs, ExtractTag, CountRefs, PinnedObjects, Slice;
    ghost var s := c.State();
    ServedSomeTime(c, held, f, g);
    ghost var b := CacheBase(s, g);
    var token;
    ghost var victim;
    token, victim := c.CacheRequest(g);
    held' := held + [Handle(token, true, false)];
    RequestSteps(s, c.State(), held, g, b, token, victim);
  }

  lemma RequestSteps(s: CacheSpec.State, s': CacheSpec.State, held: seq<Handle>, g: GAddr, b: GAddr, token: Token,
                     victim: int)
    requires Inv(s) && HasBlock(s, g.typeId) && SizeOf(s, g.typeId) > 0 && 0 < s.mem.pageSize < TWO_64
    requires g.offset < TWO_64 && b == CacheBase(s, g) && b in s.objs && Servable(s, b, victim)
    requires s' == CacheSpec.Request(s, b, victim) && b in s'.table
    requires token == Token(b.offset, b.typeId, s'.table[b], g.offset - b.offset)
    ensures Steps(Sys(s, held), Sys(s', held + [Handle(token, true, false)]), DoRequest(g), Done)
  {
    hide InvHole, View, ExtractTag, CacheSpec.Request, Servable;
    assert Step(Sys(s, held), DoRequest(g), victim) == (Sys(s', held + [Handle(token, true, false)]), Done);
  }

  /** The other calls need no victim. */
  lemma CallSteps(c: Sys, c': Sys, op: Op, out: Out)
    requires !op.DoRequest? && Enabled(c, op, 0) && Step(c, op, 0) == (c', out)
    ensures Steps(c, c', op, out)
  {
    hide Enabled, Step;
  }

  /** A registration or an allocation. */
  method Make(c: ComputeContext, held: seq<Handle>, op: Op, ghost f: Flat) returns (out: Out)
    requires (op.DoRegister? || op.DoAlloc?) && Works(c, held, f) && Legal(f, op)
    modifies c.Repr
    ensures c.Valid() && fresh(c.Repr - old(c.Repr))
    ensures Steps(Sys(old(c.State()), held), Sys(c.State(), held), op, out)
  {
    hide ComputeContext.HeapOk, ComputeContext.State, InvHole, Sim, View, Recurs, Register, AllocObject, Slice;
    ghost var s := c.State();
    SimParts(Sys(s, held), f);
    InvShape(s);
    match op
    case DoRegister(size) =>
      var t := c.RegisterType(size);
      out := TypeId(t);
      CallSteps(Sys(s, held), Sys(c.State(), held), op, out);
    case DoAlloc(t, size) =>
      var r := c.DisaggAlloc(t, size);
      out := Address(r);
      CallSteps(Sys(s, held), Sys(c.State(), held), op, out);
  }

  lemma InvShape(s: CacheSpec.State)
    requires Inv(s)
    ensures |s.alloc.chunks| == |s.blocks| && s.mem.pageSize > 0
  {
  }

  /** Where a token leads, and how far. */
  lemma TokenReaches(c: Sys, f: Flat, h: nat, at: int, n: nat)
    requires Sim(c, f) && FlatOk(f) && h < |f.refs| && f.refs[h].live && InRange(f, f.refs[h], at, n)
    ensures h < |c.held| && Reaches(c, h, at, n)
    ensures var t := c.held[h].token;
      && HasBlock(c.s, t.typeId) && 0 <= t.slotIndex < SLOT_COUNT
      && |Bytes(c.s, t.typeId, t.slotIndex)| == SizeOf(c.s, t.typeId)
      && 0 <= t.slotOff + at && t.slotOff + at + n <= SizeOf(c.s, t.typeId)
  {
    hide Sim, View, Slice, InvHole, IsValid;
    ReachedBytes(c, f, h, at, n);
    TokenMatches(c, f, h);
  }

  /** A load through the pointer of a token. */
  method Load(c: ComputeContext, held: seq<Handle>, h: nat, at: int, n: nat, ghost f: Flat) returns (out: Out)
    requires Works(c, held, f) && Legal(f, DoLoad(h, at, n))
    ensures Steps(Sys(c.State(), held), Sys(c.State(), held), DoLoad(h, at, n), out)
  {
    hide ComputeContext.HeapOk, ComputeContext.State, Inv, Sim, View, Recurs, Slice, FlatOk, InRange;
    ghost var s := c.State();
    TokenReaches(Sys(s, held), f, h, at, n);
    var t := held[h].token;
    var ptr := c.CacheAccess(t);
    StrideSplit(t.slotIndex, SizeOf(s, t.typeId), t.slotOff + at);
    var bs := c.Load(t.typeId, t.slotIndex, ptr + at, n);
    out := Loaded(bs);
    CallSteps(Sys(s, held), Sys(s, held), DoLoad(h, at, n), out);
  }

  lemma StrideSplit(i: nat, size: nat, off: nat)
    ensures i * size + off >= 0
  {
  }

  /** A store through the pointer of a token. */
  method Store(c: ComputeContext, held: seq<Handle>, h: nat, at: int, bs: seq<byte>, ghost f: Flat)
    requires Works(c, held, f) && Legal(f, DoStore(h, at, bs))
    modifies c.Repr
    ensures c.Valid() && c.Repr == old(c.Repr)
    ensures Steps(Sys(old(c.State()), held), Sys(c.State(), held), DoStore(h, at, bs), Done)
  {
    hide ComputeContext.HeapOk, ComputeContext.State, Inv, Sim, View, Recurs, Splice, FlatOk, InRange, IsValid;
    hide CacheSpec.Store, Pins;
    ghost var s := c.State();
    TokenReaches(Sys(s, held), f, h, at, |bs|);
    DirtyHandle(Sys(s, held), f, h);
    var t := held[h].token;
    var ptr := c.CacheAccess(t);
    StrideSplit(t.slotIndex, SizeOf(s, t.typeId), t.slotOff + at);
    c.Save(t.typeId, t.slotIndex, ptr + at, bs);
    CallSteps(Sys(s, held), Sys(c.State(), held), DoStore(h, at, bs), Done);
  }

  lemma DirtyHandle(c: Sys, f: Flat, h: nat)
    requires Sim(c, f) && h < |f.refs| && f.refs[h].live
    ensures h < |c.held| && c.held[h].live
    ensures var t := c.held[h].token;
      && Live(c.s, t.typeId, t.slotIndex) && SlotAt(c.s, t.typeId, t.slotIndex).tag == t.tag
      && Pins(c.s, t.typeId, t.slotIndex) > 0
      && (f.refs[h].mut ==> SlotAt(c.s, t.typeId, t.slotIndex).dirty)
  {
    hide Sim, IsValid;
    TokenMatches(c, f, h);
    LiveToken(c, f, h);
  }

  /** Mutable access through a token. */
  method Mark(c: ComputeContext, held: seq<Handle>, h: nat, ghost f: Flat) returns (held': seq<Handle>)
    requires Works(c, held, f) && Legal(f, DoAccessMut(h))
    modifies c.Repr
    ensures c.Valid() && c.Repr == old(c.Repr)
    ensures Steps(Sys(old(c.State()), held), Sys(c.State(), held'), DoAccessMut(h), Done)
  {
    hide ComputeContext.HeapOk, ComputeContext.State, Inv, Sim, View, Recurs, FlatOk, IsValid, MarkDirty, Pins;
    ghost var s := c.State();
    DirtyHandle(Sys(s, held), f, h);
    var ptr := c.CacheAccessMut(held[h].token);
    held' := held[h := held[h].(mut := true)];
    CallSteps(Sys(s, held), Sys(c.State(), held'), DoAccessMut(h), Done);
  }

  /** A token is given back. */
  method Free(c: ComputeContext, held: seq<Handle>, h: nat, ghost f: Flat) returns (held': seq<Handle>)
    requires Works(c, held, f) && Legal(f, DoFree(h))
    modifies c.Repr
    ensures c.Valid() && c.Repr == old(c.Repr)
    ensures Steps(Sys(old(c.State()), held), Sys(c.State(), held'), DoFree(h), Done)
  {
    hide ComputeContext.HeapOk, ComputeContext.State, Inv, Sim, View, Recurs, FlatOk, IsValid, Unpin, Pins;
    ghost var s := c.State();
    DirtyHandle(Sys(s, held), f, h);
    c.TokenFree(held[h].token);
    held' := held[h := held[h].(live := false)];
    CallSteps(Sys(s, held), Sys(c.State(), held'), DoFree(h), Done);
  }

  /** One call of the client. */
  method Call(c: ComputeContext, held: seq<Handle>, op: Op, ghost f: Flat) returns (held': seq<Handle>, out: Out)
    requires Works(c, held, f) && Legal(f, op)
    modifies c.Repr
    ensures c.Valid() && fresh(c.Repr - old(c.Repr))
    ensures Works(c, held', FlatStep(f, op).0) && out == FlatStep(f, op).1
  {
    hide Works, Legal, FlatStep, Steps, Sim, ComputeContext.State, ComputeContext.Valid, FlatOk, Recurs;
    ghost var s := c.State();
    Working(c, held, f);
    held', out := held, Done;
    match op {
      case DoRegister(_) => out := Make(c, held, op, f);
      case DoAlloc(_, _) => out := Make(c, held, op, f);
      case DoRequest(g) => held' := Request(c, held, g, f);
      case DoLoad(h, at, n) => out := Load(c, held, h, at, n, f);
      case DoAccessMut(h) => held' := Mark(c, held, h, f);
      case DoStore(h, at, bs) => Store(c, held, h, at, bs, f);
      case DoFree(h) => held' := Free(c, held, h, f);
    }
    StepsSimulate(Sys(s, held), Sys(c.State(), held'), f, op, out);
    StillWorks(c, held', FlatStep(f, op).0);
  }

  lemma Working(c: ComputeContext, held: seq<Handle>, f: Flat)
    requires Works(c, held, f)
    ensures c.Valid() && Recurs(c.draws) && FlatOk(f) && Sim(Sys(c.State(), held), f)
  {
  }

  lemma StillWorks(c: ComputeContext, held: seq<Handle>, f: Flat)
    requires c.Valid() && Recurs(c.draws) && FlatOk(f) && Sim(Sys(c.State(), held), f)
    ensures Works(c, held, f)
  {
  }

  lemma StepsSimulate(c: Sys, c': Sys, f: Flat, op: Op, out: Out)
    requires Sim(c, f) && FlatOk(f) && Legal(f, op) && Steps(c, c', op, out)
    ensures Sim(c', FlatStep(f, op).0) && out == FlatStep(f, op).1
  {
    hide Sim, FlatOk, Legal, Chosen, Enabled, Step, FlatStep;
    var victim :| Chosen(c, op, victim) && Enabled(c, op, victim) && Step(c, op, victim) == (c', out);
    StepSimulates(c, f, op, victim);
  }

  /** A whole program on a fresh context: every answer is the one that flat memory
      with the same contents gives, whatever is drawn and evicted on the way. */
  method RunClient(c: ComputeContext, ops: seq<Op>) returns (outs: seq<Out>)
    requires c.Valid() && c.State() == InitState(c.mem, c.remote) && Recurs(c.draws)
    requires PoolOk(c.mem) && |c.remote| == UpperBound(c.mem) - c.mem.addr
    requires LegalRun(InitFlat(c.mem, c.remote), ops)
    modifies c.Repr
    ensures outs == old(FlatRun(InitFlat(c.mem, c.remote), ops).1)
  {
    hide ComputeContext.Valid, ComputeContext.State, Works, Legal, FlatStep, InitFlat, InitState, FlatOk;
    ghost var f := InitFlat(c.mem, c.remote);
    ghost var all := FlatRun(f, ops).1;
    InitSim(c.mem, c.remote);
    var held: seq<Handle> := [];
    StillWorks(c, held, f);
    outs := [];
    var i := 0;
    while i < |ops|
      invariant 0 <= i <= |ops| && c.Valid() && fresh(c.Repr - old(c.Repr))
      invariant FlatOk(f) && Works(c, held, f) && LegalRun(f, ops[i..])
      invariant all == outs + FlatRun(f, ops[i..]).1
    {
      assert ops[i..][0] == ops[i] && ops[i..][1..] == ops[i + 1..];
      var out;
      held, out := Call(c, held, ops[i], f);
      ghost var f' := FlatStep(f, ops[i]).0;
      assert FlatRun(f, ops[i..]).1 == [out] + FlatRun(f', ops[i + 1..]).1;
      outs := outs + [out];
      f := f';
      i := i + 1;
    }
    assert outs + [] == outs;
  }

  /** The rules of the client see to it that its requests are served. */
  lemma ServedSomeTime(c: ComputeContext, held: seq<Handle>, f: Flat, g: GAddr)
    requires Works(c, held, f) && Legal(f, DoRequest(g))
    ensures c.Addressable(g) && CacheBase(c.State(), g) in c.State().objs && c.WillBeServed(g)
    ensures CacheBase(c.State(), g) in c.table ==>
      && IsSlot(c.State(), g.typeId, c.table[CacheBase(c.State(), g)])
      && Pins(c.State(), g.typeId, c.table[CacheBase(c.State(), g)]) + 1 < RC_LIMIT
  {
    hide ComputeContext.HeapOk, ComputeContext.State, Sim, InvHole, View, Recurs, ExtractTag, CountRefs;
    hide PinnedObjects, Slice;
    var s := c.State();
    SimParts(Sys(s, held), f);
    BlockOf(s, g.typeId);
    BaseAgrees(Sys(s, held), f, g);
    var victim := NeverStuck(Sys(s, held), f, g);
    var b := CacheBase(s, g);
    if b in s.table {
      PinsAreRefs(Sys(s, held), f, b);
    } else if s.blocks[g.typeId].free == [] {
      var n := NextDraw(c.draws, victim, c.drawn);
      assert EndsAt(s, g.typeId, c.draws, n);
    }
  }
}