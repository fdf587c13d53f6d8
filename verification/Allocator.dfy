/** The allocating half of the compute context: a chunk list for every type and
    the global chunk counter. */
module Allocator {
  import opened Options
  import opened Bits
  import opened Addr
  import opened Alloc
  import opened ChunkList

  class ChunkAllocator {
    const mem: MemInfo
    var lists: seq<ChunkRefList>
    var nextChunk: nat
    ghost var Repr: set<object>

    ghost predicate Valid()
      reads this, Repr
      ensures Valid() ==> this in Repr
    {
      && mem.pageSize > 0
      && this in Repr
      && (forall i :: 0 <= i < |lists| ==>
            lists[i] in Repr && lists[i].Footprint() <= Repr && this !in lists[i].Footprint())
      && (forall i :: 0 <= i < |lists| ==> lists[i].Valid())
      && (forall i, j :: 0 <= i < |lists| && 0 <= j < |lists| && i != j ==>
            lists[i].Footprint() !! lists[j].Footprint())
    }

    ghost function View(): (a: AllocState)
      requires Valid()
      reads this, Repr
      ensures |a.chunks| == |lists| && a.next == nextChunk
      ensures forall i :: 0 <= i < |lists| ==> a.chunks[i] == lists[i].Contents()
    {
      AllocState(seq(|lists|, i requires 0 <= i < |lists| && Valid() reads this, Repr => lists[i].Contents()),
                 nextChunk)
    }

    /** Work on the list of one type leaves the lists of the other types as they were. */
    twostate lemma OthersKept(t: nat)
      requires old(Valid()) && lists == old(lists) && t < |lists|
      requires forall o :: o in old(Repr) && o != this && o !in old(lists[t].Footprint()) ==> unchanged(o)
      ensures forall j :: 0 <= j < |lists| && j != t ==>
        && lists[j].Footprint() == old(lists[j].Footprint()) && lists[j].Valid()
        && lists[j].Contents() == old(lists[j].Contents())
    {
      forall j | 0 <= j < |lists| && j != t
        ensures lists[j].Footprint() == old(lists[j].Footprint()) && lists[j].Valid()
        ensures lists[j].Contents() == old(lists[j].Contents())
      {
        assert old(lists[j].Footprint()) !! old(lists[t].Footprint());
        lists[j].Undisturbed();
      }
    }

    /** Three reserved types, nothing handed out. */
    constructor (mem: MemInfo)
      requires mem.pageSize > 0
      ensures Valid() && fresh(Repr) && this.mem == mem
      ensures View() == AllocState([[], [], []], mem.addr)
    {
      this.mem := mem;
      nextChunk := mem.addr;
      lists, Repr := [], {this};
      new;
      hide ChunkRefList.Valid, ChunkRefList.Contents;
      AddType();
      AddType();
      AddType();
      assert View().chunks == [[], [], []];
    }

    /** A new type starts with an empty list. */
    method AddType()
      requires Valid()
      modifies this
      ensures Valid() && fresh(Repr - old(Repr)) && old(Repr) <= Repr
      ensures View() == AllocState(old(View()).chunks + [[]], old(View()).next)
    {
      hide ChunkRefList.Valid, ChunkRefList.Contents;
      var l := new ChunkRefList();
      lists := lists + [l];
      Repr := Repr + l.Footprint();
      forall j | 0 <= j < |lists| - 1
        ensures lists[j].Footprint() == old(lists[j].Footprint())
        ensures lists[j].Valid() && lists[j].Contents() == old(lists[j].Contents())
      {
        lists[j].Undisturbed();
      }
      assert View().chunks == old(View()).chunks + [[]];
    }

    /** Appends a chunk to the list of a type. */
    method InsertChunk(t: nat, addr: nat)
      requires Valid() && t < |lists|
      modifies Repr - {this}, this`Repr
      ensures Valid() && fresh(Repr - old(Repr)) && old(Repr) <= Repr
      ensures View() == old(View()).(chunks := old(View()).chunks[t := old(View()).chunks[t] + [addr]])
    {
      hide ChunkRefList.Valid, ChunkRefList.Contents;
      var chunks := lists[t];
      chunks.Insert(addr);
      Repr := Repr + chunks.Footprint();
      OthersKept(t);
      forall j | 0 <= j < |lists| && j != t
        ensures lists[j].Footprint() !! chunks.Footprint()
      {
        assert old(lists[j].Footprint()) !! old(chunks.Footprint());
      }
      assert View().chunks == old(View()).chunks[t := old(View()).chunks[t] + [addr]];
    }

    /** atomic_fetch_add on the chunk counter. */
    method FetchAddChunk() returns (addr: nat)
      requires Valid()
      modifies this`nextChunk
      ensures Valid() && addr == old(nextChunk)
      ensures View() == old(View()).(next := Add64(addr, mem.pageSize))
    {
      hide ChunkRefList.Valid, ChunkRefList.Contents;
      addr := nextChunk;
      nextChunk := Add64(nextChunk, mem.pageSize);
      assert View().chunks == old(View()).chunks;
    }

    /** Shifts the bump pointer of the last chunk. */
    method BumpTail(t: nat, size: nat) returns (off: nat)
      requires Valid() && t < |lists| && View().chunks[t] != []
      modifies Repr
      ensures Valid() && Repr == old(Repr) && lists == old(lists)
      ensures (View(), Some(GAddr(t, off % TWO_56))) == Bump(old(View()), t, size)
    {
      hide ChunkRefList.Valid, ChunkRefList.Contents;
      var chunks := lists[t];
      assert View().chunks[t] == chunks.Contents();
      off := chunks.FetchAddTail(size);
      OthersKept(t);
      assert View().chunks == Bump(old(View()), t, size).0.chunks;
    }

    /** `disagg_alloc` for a known object size. */
    method DisaggAlloc(t: nat, size: nat) returns (r: Option<GAddr>)
      requires Valid() && t < |lists|
      modifies Repr
      ensures Valid() && fresh(Repr - old(Repr)) && old(Repr) <= Repr && lists == old(lists)
      ensures (View(), r) == Allocate(mem, old(View()), t, size)
    {
      if size > mem.pageSize {
        return None;
      }
      assert View().chunks[t] == lists[t].Contents();
      if lists[t].head == null || ChunkFull(mem.pageSize, lists[t].tail.nextAddr, size) {
        var addr := FetchAddChunk();
        InsertChunk(t, addr);
        assert View() == OpenChunk(mem, old(View()), t);
        if addr >= UpperBound(mem) {
          return None;
        }
      }
      var off := BumpTail(t, size);
      r := Some(GAddr(t, off % TWO_56));
    }
  }
}
