/** The compute context: the cache blocks of all types, the translation table, the
    allocator and the remote pool, and the public calls of the runtime on them. */
module Context {
  import opened Options
  import opened Bits
  import opened Addr
  import opened Alloc
  import opened SlotWord
  import opened Allocator
  import opened CacheSpec
  import opened CacheInv
  import opened CacheRequest
  import opened CacheBlocks
  import opened Eviction

  const NO_BLOCK := Block(0, [], [], [])

  class ComputeContext {
    const mem: MemInfo
    const draws: nat -> nat  // what rand() yields, call by call
    const allocator: ChunkAllocator
    var drawn: nat
    var caches: seq<CacheBlock?>  // null for the reserved types
    var table: map<GAddr, int>
    var remote: seq<byte>         // the pool at the memory server
    ghost var objs: set<GAddr>
    ghost var Repr: set<object>

    /** The heap is in shape: the parts are there and do not overlap. */
    ghost predicate HeapOk()
      reads this, Repr
      ensures HeapOk() ==> this in Repr
    {
      && this in Repr && allocator in Repr && allocator.Repr <= Repr && this !in allocator.Repr
      && allocator.Valid() && allocator.mem == mem && |allocator.lists| == |caches|
      && RESERVED_TYPES <= |caches|
      && (forall t :: 0 <= t < RESERVED_TYPES ==> caches[t] == null)
      && (forall t :: RESERVED_TYPES <= t < |caches| ==> BlockOk(caches[t]))
      && (forall t, u :: RESERVED_TYPES <= t < |caches| && RESERVED_TYPES <= u < |caches| && t != u ==>
            caches[t].Footprint() !! caches[u].Footprint())
    }

    ghost predicate BlockOk(c: CacheBlock?)
      reads this, Repr
    {
      && this in Repr && allocator in Repr && allocator.Repr <= Repr
      && c != null && c in Repr && c.freeList in Repr && c.Footprint() <= Repr
      && this !in c.Footprint() && c.Footprint() !! allocator.Repr
      && c.Valid() && c.slotCount == SLOT_COUNT
    }

    ghost function BlockAt(t: nat): Block
      requires HeapOk() && t < |caches|
      reads this, Repr
    {
      if t < RESERVED_TYPES then NO_BLOCK else caches[t].View()
    }

    ghost function State(): (s: State)
      requires HeapOk()
      reads this, Repr
      ensures |s.blocks| == |caches| && s.table == table && s.remote == remote && s.mem == mem && s.objs == objs
      ensures s.alloc == allocator.View()
      ensures forall t :: 0 <= t < |caches| ==> s.blocks[t] == BlockAt(t)
    {
      CacheSpec.State(mem, seq(|caches|, t requires 0 <= t < |caches| && HeapOk() reads this, Repr => BlockAt(t)),
                      table, remote, allocator.View(), objs)
    }

    /** The heap is in shape and the invariant of the cache holds. */
    ghost predicate Valid()
      reads this, Repr
      ensures Valid() ==> HeapOk() && Inv(State())
    {
      HeapOk() && Inv(State())
    }

    /** After the handshake: reserved types only, everything remote. */
    constructor (mem: MemInfo, remote: seq<byte>, draws: nat -> nat)
      requires PoolOk(mem) && |remote| == UpperBound(mem) - mem.addr
      ensures Valid() && fresh(Repr) && this.mem == mem && this.draws == draws && drawn == 0
      ensures State() == InitState(mem, remote)
    {
      this.mem, this.draws, drawn := mem, draws, 0;
      allocator := new ChunkAllocator(mem);
      caches, table, this.remote, objs := [null, null, null], map[], remote, {};
      new;
      hide ChunkAllocator.Valid, ChunkAllocator.View, Inv, PoolOk;
      Repr := {this} + allocator.Repr;
      assert State().blocks == InitState(mem, remote).blocks;
      InitInv(mem, remote);
    }

    /** Work on the block of one type leaves all other parts as they were. */
    twostate lemma OthersKept(t: nat)
      requires old(HeapOk()) && RESERVED_TYPES <= t < |caches| && caches == old(caches)
      requires forall o :: o in old(Repr) && o != this && o !in old(caches[t].Footprint()) ==> unchanged(o)
      ensures allocator.Valid() && allocator.Repr == old(allocator.Repr) && allocator.lists == old(allocator.lists)
      ensures allocator.View() == old(allocator.View())
      ensures forall u :: RESERVED_TYPES <= u < |caches| && u != t ==>
        && caches[u].Footprint() == old(caches[u].Footprint()) && caches[u].Valid()
        && caches[u].View() == old(caches[u].View())
    {
      forall u | RESERVED_TYPES <= u < |caches| && u != t
        ensures caches[u].Footprint() == old(caches[u].Footprint()) && caches[u].Valid()
        ensures caches[u].View() == old(caches[u].View())
      {
        assert old(BlockOk(caches[u]));
        assert old(caches[u].Footprint()) !! old(caches[t].Footprint());
        caches[u].Undisturbed();
      }
      assert old(BlockOk(caches[t]));
      assert allocator in old(allocator.Repr);
      assert forall o :: o in old(allocator.Repr) ==> o in old(Repr) && o != this && o !in old(caches[t].Footprint());
    }

    /** The block of one type was worked on: the state changes there only. */
    twostate lemma BlockUpdated(t: nat)
      requires old(HeapOk()) && RESERVED_TYPES <= t < |caches| && caches == old(caches) && Repr == old(Repr)
      requires table == old(table) && remote == old(remote) && objs == old(objs)
      requires forall o :: o in old(Repr) && o != this && o !in old(caches[t].Footprint()) ==> unchanged(o)
      requires caches[t].Valid() && caches[t].Footprint() <= old(caches[t].Footprint())
      ensures HeapOk() && old(State()).blocks[t] == old(caches[t].View())
      ensures State() == old(State()).(blocks := old(State()).blocks[t := caches[t].View()])
    {
      hide CacheBlock.Valid, CacheBlock.View, ChunkAllocator.Valid, ChunkAllocator.View;
      assert old(BlockOk(caches[t]));
      OthersKept(t);
      forall u | RESERVED_TYPES <= u < |caches|
        ensures BlockOk(caches[u])
      {
        assert old(BlockOk(caches[u]));
      }
      assert State().blocks == old(State()).blocks[t := caches[t].View()];
    }

    /** Only the context's own fields changed. */
    twostate lemma FieldsUpdated()
      requires old(HeapOk()) && caches == old(caches) && Repr == old(Repr)
      requires forall o :: o in old(Repr) && o != this ==> unchanged(o)
      ensures HeapOk() && State() == old(State()).(table := table, remote := remote, objs := objs)
    {
      hide CacheBlock.Valid, CacheBlock.View, ChunkAllocator.Valid, ChunkAllocator.View;
      forall u | RESERVED_TYPES <= u < |caches|
        ensures caches[u].Footprint() == old(caches[u].Footprint()) && BlockOk(caches[u])
        ensures caches[u].View() == old(caches[u].View())
      {
        assert old(BlockOk(caches[u]));
        caches[u].Undisturbed();
      }
      assert State().blocks == old(State()).blocks;
    }

    // One memory operation each

    /** Writes the metadata of a slot. */
    method SetMeta(t: nat, i: nat, m: Slot)
      requires HeapOk() && RESERVED_TYPES <= t < |caches| && i < SLOT_COUNT
      modifies Repr - {this}
      ensures HeapOk()
      ensures IsSlot(old(State()), t, i) && State() == SetSlot(old(State()), t, i, m)
    {
      assert BlockOk(caches[t]);
      caches[t].SetMeta(i, m);
      BlockUpdated(t);
    }

    /** atomic_compare_exchange_strong(&word, FLAG_VALID, 0). */
    method CompareExchange(t: nat, i: nat) returns (swapped: bool)
      requires HeapOk() && RESERVED_TYPES <= t < |caches| && i < SLOT_COUNT
      modifies Repr - {this}
      ensures HeapOk()
      ensures IsSlot(old(State()), t, i) && swapped == Evictable(old(State()), t, i)
      ensures swapped ==> State() == SetSlot(old(State()), t, i, SlotAt(old(State()), t, i).(word := 0))
      ensures !swapped ==> State() == old(State())
    {
      assert BlockOk(caches[t]);
      swapped := caches[t].CompareExchange(i);
      BlockUpdated(t);
    }

    /** Takes a slot off the free list, -1 if there is none. */
    method PopFree(t: nat) returns (slot: int)
      requires HeapOk() && RESERVED_TYPES <= t < |caches|
      modifies Repr - {this}
      ensures HeapOk() && HasBlock(old(State()), t)
      ensures old(State()).blocks[t].free == [] ==> slot == -1 && State() == old(State())
      ensures old(State()).blocks[t].free != [] ==>
        slot == old(State()).blocks[t].free[0] && State() == TakeFree(old(State()), t)
    {
      assert BlockOk(caches[t]);
      slot := caches[t].PopFree();
      BlockUpdated(t);
    }

    /** Bytes arrive at a pointer into slot i. */
    method WriteAt(t: nat, ghost i: nat, ptr: nat, bs: seq<byte>)
      requires HeapOk() && RESERVED_TYPES <= t < |caches| && i < SLOT_COUNT
      requires i * caches[t].size <= ptr && ptr + |bs| <= i * caches[t].size + caches[t].size
      modifies Repr - {this}
      ensures HeapOk()
      ensures IsSlot(old(State()), t, i) && |Bytes(old(State()), t, i)| == old(caches[t].size)
      ensures State() == Store(old(State()), t, i, ptr - i * old(caches[t].size), bs)
    {
      assert BlockOk(caches[t]);
      caches[t].WriteAt(i, ptr, bs);
      BlockUpdated(t);
    }

    /** Reads the metadata of a slot. */
    method ReadMeta(t: nat, i: nat) returns (m: Slot)
      requires HeapOk() && RESERVED_TYPES <= t < |caches| && i < SLOT_COUNT
      ensures IsSlot(State(), t, i) && m == SlotAt(State(), t, i)
    {
      assert BlockOk(caches[t]);
      m := caches[t].metadata[i];
    }

    /** The bytes of a slot, as they are sent to the memory server. */
    method ReadSlot(t: nat, i: nat) returns (bs: seq<byte>)
      requires HeapOk() && RESERVED_TYPES <= t < |caches| && i < SLOT_COUNT
      ensures IsSlot(State(), t, i) && bs == Bytes(State(), t, i)
    {
      assert BlockOk(caches[t]);
      bs := caches[t].ReadAll(i);
    }

    /** Overwrites the bytes of a slot: an RDMA read has completed. */
    method Receive(t: nat, i: nat, bs: seq<byte>)
      requires HeapOk() && RESERVED_TYPES <= t < |caches| && i < SLOT_COUNT
      requires |bs| == SizeOf(State(), t)
      modifies Repr - {this}
      ensures HeapOk()
      ensures IsSlot(old(State()), t, i) && State() == SetBytes(old(State()), t, i, bs)
    {
      assert BlockOk(caches[t]);
      caches[t].Receive(i, bs);
      BlockUpdated(t);
    }

    /** Reads remote memory at an address. */
    method RdmaRead(at: nat, n: nat) returns (bs: seq<byte>)
      requires HeapOk() && at + n <= |remote|
      ensures |bs| == n && bs == Slice(State().remote, at, n)
    {
      bs := remote[at..at + n];
    }

    /** `types[t]->size`. */
    method TypeSize(t: nat) returns (size: nat)
      requires HeapOk() && RESERVED_TYPES <= t < |caches|
      ensures HasBlock(State(), t) && size == SizeOf(State(), t)
    {
      assert BlockOk(caches[t]);
      size := caches[t].size;
    }

    /** rand(). */
    method Draw() returns (r: nat)
      requires HeapOk()
      modifies this`drawn
      ensures HeapOk() && State() == old(State())
      ensures r == draws(old(drawn)) && drawn == old(drawn) + 1
    {
      r := draws(drawn);
      drawn := drawn + 1;
      FieldsUpdated();
    }

    /** hashmap_set and hashmap_delete. */
    method SetTable(m: map<GAddr, int>)
      requires HeapOk()
      modifies this`table
      ensures HeapOk() && State() == old(State()).(table := m)
    {
      table := m;
      FieldsUpdated();
    }

    /** Overwrites remote memory at an address: an RDMA write has completed. */
    method RdmaWrite(at: nat, bs: seq<byte>)
      requires HeapOk() && at + |bs| <= |remote|
      modifies this`remote
      ensures HeapOk() && State() == old(State()).(remote := Splice(old(remote), at, bs))
    {
      remote := Splice(remote, at, bs);
      FieldsUpdated();
    }

    // The calls of the runtime

    /** The address is one of a registered type whose tag can be computed. */
    ghost predicate Addressable(g: GAddr)
      requires HeapOk()
      reads this, Repr
    {
      HasBlock(State(), g.typeId) && SizeOf(State(), g.typeId) > 0 && 0 < mem.pageSize < TWO_64 && g.offset < TWO_64
    }

    /** `extract_tag` of an address: the start of its page and the whole objects
        before it in the page. */
    method ExtractTagOf(g: GAddr) returns (tag: nat)
      requires HeapOk() && Addressable(g)
      ensures GAddr(g.typeId, tag) == CacheBase(State(), g)
      ensures IsPowerOfTwo(mem.pageSize) ==>
        var p, size, x := mem.pageSize, SizeOf(State(), g.typeId), g.offset;
        tag == x - x % p + x % p / size * size && tag <= x < tag + size
    {
      assert BlockOk(caches[g.typeId]);
      if IsPowerOfTwo(mem.pageSize) {
        TagDecomposition(mem.pageSize, caches[g.typeId].size, g.offset);
        TagIsCellStart(mem.pageSize, caches[g.typeId].size, g.offset);
      }
      tag := ExtractTag(mem.pageSize, caches[g.typeId].size, g.offset);
    }

    /** The table leads to a valid slot that carries the tag. */
    ghost predicate Hit(s: State, b: GAddr) {
      b in s.table && Live(s, b.typeId, s.table[b]) && SlotAt(s, b.typeId, s.table[b]).tag == b.offset
    }

    /** `cache_try_request`: takes a reference on a hit; on a miss it claims the
        table entry for the free slot, if one is given and nobody else has it. */
    method TryRequest(g: GAddr, freeSlot: int) returns (token: Token)
      requires HeapOk() && Addressable(g) && freeSlot < SLOT_COUNT
      requires var s, b := State(), CacheBase(State(), g);
        b in s.table ==> IsSlot(s, b.typeId, s.table[b]) && !InIo(SlotAt(s, b.typeId, s.table[b]).word)
      modifies Repr
      ensures HeapOk() && drawn == old(drawn) && Repr == old(Repr)
      ensures var s, b := old(State()), old(CacheBase(State(), g));
        if Hit(s, b) then
          && token == Token(b.offset, b.typeId, s.table[b], g.offset - b.offset) && !IsNull(token)
          && State() == Pin(s, b.typeId, s.table[b])
        else
          && token == TOKEN_NULL
          && State() == if freeSlot >= 0 && b !in s.table then s.(table := s.table[b := freeSlot]) else s
    {
      hide HeapOk, State, ExtractTag, SetSlot, Increment, ShapeOk;
      var tag := ExtractTagOf(g);
      var key := GAddr(g.typeId, tag);
      var found := key in table;
      if freeSlot >= 0 && !found {
        SetTable(table[key := freeSlot]);
      }
      if found {
        var i := table[key];
        token := Token(tag, g.typeId, i, g.offset - tag);
        var m := ReadMeta(g.typeId, i);
        if IsValid(m.word) && m.tag == tag {
          SetMeta(g.typeId, i, m.(word := Increment(m.word)));
          return;
        }
      }
      token := TOKEN_NULL;
    }

    /** An unreferenced slot will be drawn. */
    ghost predicate VictimAhead(t: nat)
      requires HeapOk()
      reads this, Repr
    {
      exists n :: drawn <= n && EndsAt(State(), t, draws, n)
    }

    /** No draw from one point up to another could be evicted. */
    ghost predicate NoneEvictable(s: CacheSpec.State, t: nat, from: nat, to: nat) {
      forall k :: from <= k < to ==> !EndsAt(s, t, draws, k)
    }

    /** One round of the retry loop. */
    method TryVictim(t: nat) returns (slot: nat, swapped: bool)
      requires HeapOk() && HasBlock(State(), t)
      modifies Repr
      ensures HeapOk() && Repr == old(Repr) && drawn == old(drawn) + 1 && slot == draws(old(drawn)) % 256
      ensures IsSlot(old(State()), t, slot) && swapped == EndsAt(old(State()), t, draws, old(drawn))
      ensures swapped ==>
        && Evictable(old(State()), t, slot)
        && State() == SetSlot(old(State()), t, slot, SlotAt(old(State()), t, slot).(word := 0))
      ensures !swapped ==> State() == old(State())
    {
      hide HeapOk, State, SetSlot, Evictable, SlotAt;
      var r := Draw();
      slot := r % SLOT_COUNT;
      swapped := CompareExchange(t, slot);
    }

    /** The retry loop: draws until the compare-exchange takes a slot. */
    method DrawVictim(t: nat) returns (slot: nat)
      requires HeapOk() && HasBlock(State(), t) && VictimAhead(t)
      modifies Repr
      ensures HeapOk() && Repr == old(Repr) && old(drawn) < drawn && slot == draws(drawn - 1) % 256
      ensures NoneEvictable(old(State()), t, old(drawn), drawn - 1) && Evictable(old(State()), t, slot)
      ensures State() == SetSlot(old(State()), t, slot, SlotAt(old(State()), t, slot).(word := 0))
    {
      hide HeapOk, State, SetSlot, Evictable, NoneEvictable, SlotAt, Distance, IsSlot, EndsAt, HasBlock;
      ghost var n :| drawn <= n && EndsAt(State(), t, draws, n);
      ghost var s := State();
      NoDrawYet(s, t, drawn);
      while true
        invariant HeapOk() && Repr == old(Repr) && State() == s && old(drawn) <= drawn <= n
        invariant NoneEvictable(s, t, old(drawn), drawn)
        decreases Distance(s, t, draws, drawn, n)
      {
        var swapped;
        slot, swapped := TryVictim(t);
        if swapped {
          return;
        }
        NearerBy(s, t, draws, drawn - 1, n);
        NotThisDraw(s, t, old(drawn), drawn - 1);
      }
    }

    lemma NoDrawYet(s: CacheSpec.State, t: nat, from: nat)
      ensures NoneEvictable(s, t, from, from)
    {
    }

    lemma NotThisDraw(s: CacheSpec.State, t: nat, from: nat, last: nat)
      requires NoneEvictable(s, t, from, last) && !EndsAt(s, t, draws, last)
      ensures NoneEvictable(s, t, from, last + 1)
    {
    }

    /** Eviction: a drawn victim loses its table entry and is written back if dirty. */
    method EvictOne(t: nat) returns (slot: nat)
      requires Valid() && HasBlock(State(), t) && VictimAhead(t)
      modifies Repr
      ensures HeapOk() && Repr == old(Repr) && old(drawn) < drawn && slot == draws(drawn - 1) % 256
      ensures NoneEvictable(old(State()), t, old(drawn), drawn - 1) && Evictable(old(State()), t, slot)
      ensures State() == EvictVictim(old(State()), t, slot)
    {
      hide HeapOk, State, Inv, SetSlot, EvictVictim, CompareExchangeValid, NoneEvictable;
      ghost var s := State();
      slot := DrawVictim(t);
      FinishEviction(t, slot, s);
    }

    /** The slot has just been invalidated: the rest of the eviction. */
    method FinishEviction(t: nat, slot: nat, ghost s: State)
      requires HeapOk() && Inv(s) && slot < SLOT_COUNT && Evictable(s, t, slot)
      requires State() == SetSlot(s, t, slot, SlotAt(s, t, slot).(word := 0))
      modifies Repr
      ensures HeapOk() && Repr == old(Repr) && drawn == old(drawn)
      ensures State() == EvictVictim(s, t, slot)
    {
      hide HeapOk, State, Inv, SetSlot, Evict, CompareExchangeValid, Splice, Slice;
      VictimInPool(s, t, slot);
      EvictInSteps(s, t, slot);
      var m := ReadMeta(t, slot);
      DropEntry(t, slot, m);
      WriteBack(t, slot, m);
      SetMeta(t, slot, Slot(0, false, 0));
    }

    /** The table entry goes, and the dirty bit is taken. */
    method DropEntry(t: nat, slot: nat, m: Slot)
      requires HeapOk() && IsSlot(State(), t, slot)
      modifies Repr
      ensures HeapOk() && Repr == old(Repr) && drawn == old(drawn)
      ensures var s2 := old(State()).(table := old(State()).table - {GAddr(t, m.tag)});
        IsSlot(s2, t, slot) && State() == SetSlot(s2, t, slot, m.(dirty := false))
    {
      hide HeapOk, State, SetSlot;
      SetTable(table - {GAddr(t, m.tag)});
      SetMeta(t, slot, m.(dirty := false));
    }

    /** The bytes of a slot that was dirty go to the memory server. */
    method WriteBack(t: nat, slot: nat, m: Slot)
      requires HeapOk() && IsSlot(State(), t, slot)
      requires m.dirty ==> mem.addr <= m.tag && m.tag - mem.addr + |Bytes(State(), t, slot)| <= |remote|
      modifies this`remote
      ensures HeapOk() && !m.dirty ==> State() == old(State())
      ensures HeapOk() && (m.dirty ==>
        State() == old(State()).(remote := Splice(old(remote), m.tag - mem.addr, Bytes(old(State()), t, slot))))
    {
      hide HeapOk, State, Splice;
      if m.dirty {
        var bs := ReadSlot(t, slot);
        RdmaWrite(m.tag - mem.addr, bs);
      }
    }

    /** The slot is claimed: its metadata is written with the I/O bit, and the
        table entry, which is always free by now, is taken. */
    method Claim(g: GAddr, slot: nat) returns (token: Token)
      requires HeapOk() && Addressable(g) && slot < SLOT_COUNT
      requires ShapeOk(State()) && TableOk(State()) && WordsOk(State()) && CacheBase(State(), g) !in State().table
      modifies Repr
      ensures HeapOk() && Repr == old(Repr) && drawn == old(drawn) && IsNull(token)
      ensures var s, b := old(State()), old(CacheBase(State(), g));
        && IsSlot(s, b.typeId, slot)
        && State() == SetSlot(s, b.typeId, slot, Slot(b.offset, false, FLAG_VALID + FLAG_IO))
                      .(table := s.table[b := slot])
    {
      hide HeapOk, State, SetSlot, ExtractTag, TableOk, WordsOk;
      ghost var s := State();
      var tag := ExtractTagOf(g);
      var m := Slot(tag, false, FLAG_VALID + FLAG_IO);
      SetMeta(g.typeId, slot, m);
      SetSlotReads(s, g.typeId, slot, m);
      assert State().table == s.table && State().mem == s.mem by { SetSlotFields(s, g.typeId, slot, m); }
      token := TryRequest(g, slot);
    }

    lemma SetSlotFields(s: CacheSpec.State, t: nat, i: int, m: Slot)
      requires IsSlot(s, t, i)
      ensures SetSlot(s, t, i, m).table == s.table && SetSlot(s, t, i, m).mem == s.mem
      ensures SetSlot(s, t, i, m).remote == s.remote && SetSlot(s, t, i, m).objs == s.objs
    {
    }

    /** The object arrives: bytes, then a word without the I/O bit and one reference. */
    method Land(b: GAddr, slot: nat, ghost s: CacheSpec.State)
      requires HeapOk() && ShapeOk(s) && IsSlot(s, b.typeId, slot)
      requires s.mem.addr <= b.offset && b.offset - s.mem.addr + SizeOf(s, b.typeId) <= |s.remote|
      requires State() == SetSlot(s, b.typeId, slot, Slot(b.offset, false, FLAG_VALID + FLAG_IO))
                          .(table := s.table[b := slot])
      modifies Repr
      ensures HeapOk() && Repr == old(Repr) && drawn == old(drawn) && State() == Fill(s, b, slot)
    {
      hide HeapOk, State, SetSlot, SetBytes, Fill, Slice, ShapeOk;
      FillInSteps(s, b, slot);
      var size := TypeSize(b.typeId);
      var bs := RdmaRead(b.offset - mem.addr, size);
      Receive(b.typeId, slot, bs);
      SetMeta(b.typeId, slot, Slot(b.offset, false, FLAG_VALID + 1));
    }

    /** The second half of a miss: the slot is claimed for the object and fetched
        into; it is never handed back to the free list. */
    method Fetch(g: GAddr, slot: nat) returns (token: Token)
      requires HeapOk() && Addressable(g) && slot < SLOT_COUNT
      requires InvHole(State(), Hole(g.typeId, slot))
      requires CacheBase(State(), g) in State().objs && CacheBase(State(), g) !in State().table
      modifies Repr
      ensures HeapOk() && Repr == old(Repr) && drawn == old(drawn)
      ensures var s, b := old(State()), old(CacheBase(State(), g));
        && IsSlot(s, b.typeId, slot)
        && s.mem.addr <= b.offset && b.offset - s.mem.addr + SizeOf(s, b.typeId) <= |s.remote|
        && State() == Fill(s, b, slot)
        && token == Token(b.offset, b.typeId, slot, g.offset - b.offset)
    {
      hide HeapOk, State, SetSlot, Fill, ExtractTag, View, ShapeOk, ObjsOk, TableOk, WordsOk;
      ghost var s, b := State(), CacheBase(State(), g);
      ViewAt(s, b);
      var tag := ExtractTagOf(g);
      token := Claim(g, slot);
      if IsNull(token) {
        Land(GAddr(g.typeId, tag), slot, s);
        token := Token(tag, g.typeId, slot, g.offset - tag);
      } else {
        assert false;
      }
    }

    /** `cache_request` terminates exactly if it hits, finds a free slot, or draws
        an unreferenced slot some time. */
    ghost predicate WillBeServed(g: GAddr)
      requires HeapOk() && Addressable(g)
      reads this, Repr
    {
      CacheBase(State(), g) in table || State().blocks[g.typeId].free != [] || VictimAhead(g.typeId)
    }

    /** The answer to a request: the successor state, and a victim drawn only if
        one was needed, as the first draw that could be evicted. */
    ghost predicate Answered(s: CacheSpec.State, s': CacheSpec.State, b: GAddr, victim: int, from: nat, to: nat)
      requires HasBlock(s, b.typeId)
    {
      && Inv(s) && b in s.objs && Servable(s, b, victim) && s' == Request(s, b, victim)
      && (if b in s.table || s.blocks[b.typeId].free != [] then to == from
          else from < to && victim == draws(to - 1) % 256
               && NoneEvictable(s, b.typeId, from, to - 1))
    }

    /** A miss when there is a free slot. */
    method MissFree(g: GAddr, slot: nat, ghost s: CacheSpec.State) returns (token: Token)
      requires HeapOk() && Addressable(g) && Inv(s) && HasBlock(s, g.typeId) && s.blocks[g.typeId].free != []
      requires slot == s.blocks[g.typeId].free[0] && State() == TakeFree(s, g.typeId)
      requires CacheBase(State(), g) in s.objs && CacheBase(State(), g) !in s.table
      modifies Repr
      ensures HeapOk() && Repr == old(Repr) && drawn == old(drawn)
      ensures var b := old(CacheBase(State(), g));
        && State() == Request(s, b, 0)
        && token == Token(b.offset, b.typeId, slot, g.offset - b.offset)
    {
      hide HeapOk, State, Inv, Fill, ExtractTag, View, Slice, TakeFree;
      FreeSlotOk(s, g.typeId);
      TakeFreeKeeps(s, g.typeId);
      TakeFreeReads(s, g.typeId);
      token := Fetch(g, slot);
    }

    /** A miss when a slot has to be evicted. */
    method MissEvict(g: GAddr) returns (token: Token, ghost victim: int)
      requires Valid() && Addressable(g) && CacheBase(State(), g) in objs && CacheBase(State(), g) !in table
      requires State().blocks[g.typeId].free == [] && VictimAhead(g.typeId)
      modifies Repr
      ensures HeapOk() && Repr == old(Repr)
      ensures var b := old(CacheBase(State(), g));
        && Answered(old(State()), State(), b, victim, old(drawn), drawn)
        && token == Token(b.offset, b.typeId, victim, g.offset - b.offset)
    {
      hide HeapOk, State, InvHole, Fill, ExtractTag, View, Slice, Evict, CompareExchangeValid, NoneEvictable;
      ghost var s, b := State(), CacheBase(State(), g);
      var slot := EvictOne(g.typeId);
      victim := slot;
      EvictKeeps(s, g.typeId, slot);
      EvictReads(s, g.typeId, slot);
      assert CacheBase(State(), g) == b;
      token := Fetch(g, slot);
    }

    /** `cache_request`: the token of the object the address lies in. */
    method CacheRequest(g: GAddr) returns (token: Token, ghost victim: int)
      requires Valid() && Addressable(g) && CacheBase(State(), g) in objs && WillBeServed(g)
      requires CacheBase(State(), g) in table ==>
        IsSlot(State(), g.typeId, table[CacheBase(State(), g)]) &&
        Pins(State(), g.typeId, table[CacheBase(State(), g)]) + 1 < RC_LIMIT
      modifies Repr
      ensures Valid() && Repr == old(Repr)
      ensures var s, b := old(State()), old(CacheBase(State(), g));
        && Answered(s, State(), b, victim, old(drawn), drawn)
        && View(State()) == View(s) && PinsAfter(s, State(), b)
        && token == Token(b.offset, b.typeId, State().table[b], g.offset - b.offset)
      ensures forall o :: Inside(old(State()), g, o) ==> LeadsTo(token, old(State()), g, o)
    {
      hide HeapOk, State, InvHole, ExtractTag, View, Slice, TakeFree, Request, PinsAfter, CompareExchangeValid;
      ghost var s, b := State(), CacheBase(State(), g);
      InsideIsBase(s, g);
      token, victim := TryMiss(g);
      RequestKeeps(s, b, victim);
      TokenOfRequest(s, b, victim);
    }

    /** The token stands for an object and for the distance of the address from its
        start, which is less than the object's size. */
    ghost predicate LeadsTo(token: Token, s: CacheSpec.State, g: GAddr, o: GAddr)
      requires HasBlock(s, o.typeId)
    {
      && token.tag == o.offset && token.typeId == o.typeId
      && 0 <= token.slotOff == g.offset - o.offset < SizeOf(s, o.typeId)
    }

    lemma InsideIsBase(s: CacheSpec.State, g: GAddr)
      requires Inv(s) && HasBlock(s, g.typeId) && g.offset < TWO_64
      ensures SizeOf(s, g.typeId) > 0 && 0 < s.mem.pageSize < TWO_64
      ensures forall o :: Inside(s, g, o) ==> o == CacheBase(s, g)
    {
      hide InvHole, ExtractTag;
      AllocatorAndCacheAgree(s, g, g);
      forall o | Inside(s, g, o)
        ensures o == CacheBase(s, g)
      {
        AllocatorAndCacheAgree(s, g, o);
      }
    }

    /** Where a request leaves the object. */
    ghost function SlotOf(s: CacheSpec.State, b: GAddr, victim: int): int
      requires HasBlock(s, b.typeId)
    {
      if b in s.table then s.table[b]
      else if s.blocks[b.typeId].free != [] then s.blocks[b.typeId].free[0] else victim
    }

    lemma TokenOfRequest(s: CacheSpec.State, b: GAddr, victim: int)
      requires Inv(s) && b in s.objs && HasBlock(s, b.typeId) && Servable(s, b, victim)
      ensures b in Request(s, b, victim).table && Request(s, b, victim).table[b] == SlotOf(s, b, victim)
    {
      hide InvHole, Quiescent, IsValid, View, CompareExchangeValid;
    }

    method TryMiss(g: GAddr) returns (token: Token, ghost victim: int)
      requires Valid() && Addressable(g) && CacheBase(State(), g) in objs && WillBeServed(g)
      modifies Repr
      ensures HeapOk() && Repr == old(Repr)
      ensures var s, b := old(State()), old(CacheBase(State(), g));
        && Answered(s, State(), b, victim, old(drawn), drawn)
        && token == Token(b.offset, b.typeId, SlotOf(s, b, victim), g.offset - b.offset)
    {
      hide HeapOk, State, InvHole, Fill, ExtractTag, View, Slice, TakeFree, Evict, SetSlot, SetBytes;
      hide CompareExchangeValid;
      ghost var s, b := State(), CacheBase(State(), g);
      victim := 0;
      RequestIsHit(s, b);
      token := TryRequest(g, -1);
      if IsNull(token) {
        var slot := PopFree(g.typeId);
        if s.blocks[g.typeId].free != [] {
          FreeNonNegative(s, g.typeId);
        }
        if slot < 0 {
          token, victim := MissEvict(g);
        } else {
          TakeFreeReads(s, g.typeId);
          assert CacheBase(State(), g) == b;
          token := MissFree(g, slot, s);
        }
      }
    }

    lemma FreeNonNegative(s: CacheSpec.State, t: nat)
      requires Inv(s) && HasBlock(s, t) && s.blocks[t].free != []
      ensures s.blocks[t].free[0] >= 0
    {
      FreeSlotOk(s, t);
    }

    /** On the invariant a hit is being in the table, and words are not in I/O. */
    lemma RequestIsHit(s: CacheSpec.State, b: GAddr)
      requires Inv(s)
      ensures b in s.table <==> Hit(s, b)
      ensures b in s.table ==> IsSlot(s, b.typeId, s.table[b]) && !InIo(SlotAt(s, b.typeId, s.table[b]).word)
    {
      if b in s.table {
        LiveIsObject(s, b.typeId, s.table[b]);
        ClearWord();
      }
    }

    // Pointers: an index into the slot array of a type

    /** `cache_access`: the pointer of a token. */
    method CacheAccess(token: Token) returns (ptr: int)
      requires HeapOk() && HasBlock(State(), token.typeId)
      ensures ptr == token.slotIndex * SizeOf(State(), token.typeId) + token.slotOff
    {
      var size := TypeSize(token.typeId);
      ptr := token.slotIndex * size + token.slotOff;
    }

    /** `cache_access_mut`: marks the slot dirty and gives the pointer. */
    method CacheAccessMut(token: Token) returns (ptr: int)
      requires Valid() && Live(State(), token.typeId, token.slotIndex)
      modifies Repr
      ensures Valid() && Repr == old(Repr) && drawn == old(drawn)
      ensures State() == MarkDirty(old(State()), token.typeId, token.slotIndex)
      ensures View(State()) == View(old(State()))
      ensures ptr == token.slotIndex * SizeOf(State(), token.typeId) + token.slotOff
    {
      hide HeapOk, State, Inv, View, SetSlot;
      ghost var s := State();
      var m := ReadMeta(token.typeId, token.slotIndex);
      SetMeta(token.typeId, token.slotIndex, m.(dirty := true));
      MarkDirtyKeeps(s, token.typeId, token.slotIndex);
      ptr := CacheAccess(token);
    }

    /** `cache_token_free`, for a token whose slot carries its tag, as the assertion
        in it demands. It keeps the invariant and the view if the token is live; a token
        freed too often takes the flags of the slot with it. */
    method TokenFree(token: Token)
      requires HeapOk() && IsSlot(State(), token.typeId, token.slotIndex)
      requires SlotAt(State(), token.typeId, token.slotIndex).tag == token.tag
      modifies Repr
      ensures HeapOk() && Repr == old(Repr) && drawn == old(drawn)
      ensures State() == Unpin(old(State()), token.typeId, token.slotIndex)
      ensures old(Valid() && Live(State(), token.typeId, token.slotIndex)) ==>
        (Valid() <==> old(Pins(State(), token.typeId, token.slotIndex)) > 0)
      ensures old(Valid() && Live(State(), token.typeId, token.slotIndex)) && Valid() ==>
        View(State()) == View(old(State()))
    {
      hide HeapOk, State, Inv, View, SetSlot, IsValid, Pins;
      ghost var s := State();
      var m := ReadMeta(token.typeId, token.slotIndex);
      SetMeta(token.typeId, token.slotIndex, m.(word := Decrement(m.word)));
      if Inv(s) && Live(s, token.typeId, token.slotIndex) {
        UnpinKeepsExactly(s, token.typeId, token.slotIndex);
      }
    }

    /** Reads n bytes through a pointer that lies in slot i. */
    method Load(t: nat, ghost i: nat, ptr: nat, n: nat) returns (bs: seq<byte>)
      requires HeapOk() && HasBlock(State(), t) && i < SLOT_COUNT
      requires i * SizeOf(State(), t) <= ptr && ptr + n <= i * SizeOf(State(), t) + SizeOf(State(), t)
      ensures IsSlot(State(), t, i) && |Bytes(State(), t, i)| == SizeOf(State(), t)
      ensures bs == Slice(Bytes(State(), t, i), ptr - i * SizeOf(State(), t), n)
    {
      assert BlockOk(caches[t]);
      bs := caches[t].ReadAt(i, ptr, n);
    }

    /** Writes bytes through a pointer that lies in slot i, which was accessed
        mutably. */
    method Save(t: nat, ghost i: nat, ptr: nat, bs: seq<byte>)
      requires Valid() && Live(State(), t, i) && SlotAt(State(), t, i).dirty
      requires i * SizeOf(State(), t) <= ptr && ptr + |bs| <= i * SizeOf(State(), t) + SizeOf(State(), t)
      modifies Repr
      ensures Valid() && Repr == old(Repr) && drawn == old(drawn)
      ensures var s := old(State());
        var o, at := GAddr(t, SlotAt(s, t, i).tag), ptr - i * SizeOf(s, t);
        && |Bytes(s, t, i)| == SizeOf(s, t)
        && State() == CacheSpec.Store(s, t, i, at, bs)
        && o in s.objs && |View(s)[o]| == SizeOf(s, t)
        && View(State()) == View(s)[o := Splice(View(s)[o], at, bs)]
    {
      hide HeapOk, State, Inv, View, SetBytes, Splice, ShapeOk, ObjsOk, TableOk, CacheSpec.Store;
      ghost var s := State();
      var size := TypeSize(t);
      WriteSlot(t, i, ptr, bs);
      StoreKeeps(s, t, i, ptr - i * size, bs);
      LiveIsObject(s, t, i);
      ViewAt(s, GAddr(t, SlotAt(s, t, i).tag));
    }

    method WriteSlot(t: nat, ghost i: nat, ptr: nat, bs: seq<byte>)
      requires HeapOk() && HasBlock(State(), t) && i < SLOT_COUNT
      requires i * SizeOf(State(), t) <= ptr && ptr + |bs| <= i * SizeOf(State(), t) + SizeOf(State(), t)
      modifies Repr - {this}
      ensures HeapOk() && IsSlot(old(State()), t, i) && |Bytes(old(State()), t, i)| == SizeOf(old(State()), t)
      ensures State() == CacheSpec.Store(old(State()), t, i, ptr - i * SizeOf(old(State()), t), bs)
    {
      hide CacheBlock.Valid, CacheBlock.View, Splice;
      assert BlockOk(caches[t]);
      WriteAt(t, i, ptr, bs);
    }

    // Allocation and registration

    /** The allocator was worked on: the state changes there only. */
    twostate lemma AllocatorUpdated()
      requires old(HeapOk()) && caches == old(caches) && table == old(table) && remote == old(remote)
      requires Repr == old(Repr) + allocator.Repr && fresh(allocator.Repr - old(allocator.Repr))
      requires forall o :: o in old(Repr) && o != this && o !in old(allocator.Repr) ==> unchanged(o)
      requires allocator.Valid() && old(allocator.Repr) <= allocator.Repr && allocator.lists == old(allocator.lists)
      ensures HeapOk() && State() == old(State()).(alloc := allocator.View(), objs := objs)
    {
      forall u | RESERVED_TYPES <= u < |caches|
        ensures caches[u].Footprint() == old(caches[u].Footprint()) && BlockOk(caches[u])
        ensures caches[u].View() == old(caches[u].View())
      {
        assert old(BlockOk(caches[u]));
        caches[u].Undisturbed();
      }
      assert State().blocks == old(State()).blocks;
    }

    /** Allocates an object of known size; new objects of proper types are noted. */
    method AllocateChunk(t: nat, size: nat) returns (r: Option<GAddr>)
      requires HeapOk() && t < |caches|
      modifies Repr
      ensures HeapOk() && fresh(Repr - old(Repr)) && drawn == old(drawn) && mem.pageSize > 0
      ensures t < |old(State()).alloc.chunks|
      ensures r == Allocate(mem, old(State()).alloc, t, size).1
      ensures State() == old(State()).(
        alloc := Allocate(mem, old(State()).alloc, t, size).0,
        objs := if r.Some? && RESERVED_TYPES <= t then old(objs) + {r.value} else old(objs))
    {
      hide Allocate, ChunkAllocator.View, ChunkAllocator.Valid, CacheBlock.Valid, CacheBlock.View;
      r := allocator.DisaggAlloc(t, size);
      Repr := Repr + allocator.Repr;
      if r.Some? && RESERVED_TYPES <= t {
        objs := objs + {r.value};
      }
      AllocatorUpdated();
    }

    /** `disagg_alloc`: the next page of the pool, if there is one and the object fits;
        a registered type has its own size, a reserved one the size asked for. */
    method DisaggAlloc(t: nat, size: nat) returns (r: Option<GAddr>)
      requires Valid() && t < |State().blocks| && RealSize(State(), t, size) > 0
      requires State().alloc.next + mem.pageSize < TWO_64
      modifies Repr
      ensures Valid() && fresh(Repr - old(Repr)) && drawn == old(drawn)
      ensures (State(), r) == AllocObject(old(State()), t, size)
      ensures var s := old(State());
        var bytes := if t < 3 then size else SizeOf(s, t);
        r == if bytes <= mem.pageSize && s.alloc.next < mem.addr + mem.pageSize * mem.pageCount
             then Some(GAddr(t, s.alloc.next)) else None
    {
      hide Allocate, HeapOk, State, Inv;
      ghost var s := State();
      AllocObjectKeeps(s, t, size);
      var realSize := size;
      if RESERVED_TYPES <= t {
        realSize := TypeSize(t);
      }
      r := AllocateChunk(t, realSize);
    }

    /** Makes room for a new type and initialises its block and chunk list. */
    method AddBlock(size: nat)
      requires HeapOk() && |caches| < MAX_TYPES
      modifies Repr
      ensures HeapOk() && fresh(Repr - old(Repr)) && drawn == old(drawn)
      ensures |old(State()).alloc.chunks| == |old(State()).blocks|
      ensures State() == Register(old(State()), size).0
    {
      hide FreshBlock, Register, State, CacheBlock.Valid, CacheBlock.View;
      hide ChunkAllocator.View, ChunkAllocator.Valid;
      allocator.AddType();
      var block := new CacheBlock(size);
      FreshBlockIs(size);
      caches := caches + [block];
      Repr := Repr + allocator.Repr + block.Footprint();
      Registered(block, size);
    }

    /** `register_type`: the id of the new type, or -1 when all ids are taken. */
    method RegisterType(size: nat) returns (t: int)
      requires Valid() && size > 0
      modifies Repr
      ensures Valid() && fresh(Repr - old(Repr)) && drawn == old(drawn)
      ensures (State(), t) == Register(old(State()), size)
      ensures t == if old(|caches|) < 255 then old(|caches|) else -1
      ensures t >= 0 ==> StartsFree(State(), t)
    {
      hide Inv, Register, State, HeapOk, StartsFree;
      RegisterKeeps(State(), size);
      RegisterResult(State(), size);
      if |caches| >= MAX_TYPES {
        return -1;
      }
      t := |caches|;
      AddBlock(size);
    }

    lemma RegisterResult(s: CacheSpec.State, size: nat)
      requires |s.alloc.chunks| == |s.blocks|
      ensures |s.blocks| >= MAX_TYPES ==> Register(s, size) == (s, -1)
      ensures |s.blocks| < MAX_TYPES ==> Register(s, size).1 == |s.blocks|
    {
    }

    lemma FreshBlockIs(size: nat)
      ensures Block(size, seq(256, _ => Slot(0, false, 0)), seq(256, _ => seq(size, _ => 0)), seq(256, i => i))
           == FreshBlock(size)
    {
    }

    /** The blocks of the types that were there are as they were. */
    twostate lemma OldBlocksKept(new block: CacheBlock)
      requires old(HeapOk()) && caches == old(caches) + [block]
      requires Repr == old(Repr) + allocator.Repr + block.Footprint()
      requires fresh(block.Footprint()) && fresh(allocator.Repr - old(allocator.Repr))
      requires forall o :: o in old(Repr) && o != this && o !in old(allocator.Repr) ==> unchanged(o)
      ensures forall u :: RESERVED_TYPES <= u < |old(caches)| ==>
        && caches[u].Footprint() == old(caches[u].Footprint()) && BlockOk(caches[u])
        && caches[u].View() == old(caches[u].View())
    {
      forall u | RESERVED_TYPES <= u < |old(caches)|
        ensures caches[u].Footprint() == old(caches[u].Footprint()) && BlockOk(caches[u])
        ensures caches[u].View() == old(caches[u].View())
      {
        assert old(BlockOk(caches[u]));
        caches[u].Undisturbed();
      }
    }

    twostate lemma Registered(new block: CacheBlock, size: nat)
      requires old(HeapOk()) && caches == old(caches) + [block] && |old(caches)| < MAX_TYPES
      requires table == old(table) && remote == old(remote) && objs == old(objs)
      requires Repr == old(Repr) + allocator.Repr + block.Footprint()
      requires fresh(block.Footprint()) && fresh(allocator.Repr - old(allocator.Repr))
      requires block.Footprint() !! allocator.Repr
      requires block.Valid() && block.slotCount == SLOT_COUNT && block.View() == FreshBlock(size)
      requires forall o :: o in old(Repr) && o != this && o !in old(allocator.Repr) ==> unchanged(o)
      requires allocator.Valid() && old(allocator.Repr) <= allocator.Repr
      requires allocator.View() == AllocState(old(allocator.View()).chunks + [[]], old(allocator.View()).next)
      ensures HeapOk() && State() == Register(old(State()), size).0
    {
      hide CacheBlock.Valid, CacheBlock.View, FreshBlock;
      OldBlocksKept(block);
      assert BlockOk(block);
      assert State().blocks == old(State()).blocks + [FreshBlock(size)];
    }
  }
}
