/** The cache block of one type as it lies in memory: the slot array, the slot
    metadata and the free list, each updated in place. */
module CacheBlocks {
  import opened Bits
  import opened SlotWord
  import opened FreeList
  import opened CacheSpec

  /** Slots do not overlap and lie inside the array. */
  lemma SlotRanges(i: nat, j: nat, n: nat, size: nat)
    requires i < n && j < n
    ensures 0 <= i * size && i * size + size <= n * size
    ensures i < j ==> i * size + size <= j * size
    ensures j < i ==> j * size + size <= i * size
  {
    MulMonotone(size, i + 1, n);
    assert (i + 1) * size == i * size + size && size * (i + 1) == (i + 1) * size && size * n == n * size;
    if i < j {
      MulMonotone(size, i + 1, j);
      assert size * j == j * size;
    }
    if j < i {
      MulMonotone(size, j + 1, i);
      assert size * i == i * size && (j + 1) * size == j * size + size && size * (j + 1) == (j + 1) * size;
    }
  }

  /** Bytes written inside slot i are seen in slot i and in no other slot. */
  lemma WrittenSlots(all: seq<byte>, ptr: nat, bs: seq<byte>, i: nat, j: nat, n: nat, size: nat)
    requires |all| == n * size && i < n && j < n && i * size <= ptr && ptr + |bs| <= i * size + size
    ensures 0 <= i * size && i * size + size <= n * size && 0 <= j * size && j * size + size <= n * size
    ensures Slice(Splice(all, ptr, bs), j * size, size)
         == if j == i then Splice(Slice(all, i * size, size), ptr - i * size, bs) else Slice(all, j * size, size)
  {
    hide Slice, Splice;
    SlotRanges(i, j, n, size);
    SlotRanges(j, j, n, size);
    if j == i {
      SpliceInside(all, i * size, size, ptr - i * size, bs);
    } else {
      SpliceSlices(all, ptr, bs, j * size, size);
    }
  }

  /** An array of n zero elements. */
  method Calloc<T>(n: nat, zero: T) returns (a: array<T>)
    ensures fresh(a) && a[..] == seq(n, _ => zero)
  {
    a := new T[n](_ => zero);
  }

  class CacheBlock {
    const slotCount: nat
    const size: nat
    const slots: array<byte>
    const metadata: array<Slot>
    const freeList: CacheFreeList

    ghost function Footprint(): set<object>
      reads freeList
    {
      {this, slots, metadata} + freeList.Footprint()
    }

    ghost predicate Valid()
      reads Footprint()
    {
      && slots.Length == slotCount * size && metadata.Length == slotCount
      && freeList.Valid()
      && this !in freeList.Footprint() && slots !in freeList.Footprint() && metadata !in freeList.Footprint()
    }

    ghost function SlotBytes(i: nat): (bs: seq<byte>)
      requires Valid() && i < slotCount
      reads Footprint()
      ensures |bs| == size
    {
      SlotRanges(i, i, slotCount, size);
      Slice(slots[..], i * size, size)
    }

    ghost function View(): (b: Block)
      requires Valid()
      reads Footprint()
      ensures b.size == size && |b.meta| == slotCount && |b.data| == slotCount
      ensures forall i :: 0 <= i < slotCount ==> b.data[i] == SlotBytes(i)
      ensures b.meta == metadata[..] && b.free == freeList.Contents()
    {
      Block(size, metadata[..],
            seq(slotCount, i requires 0 <= i < slotCount && Valid() reads Footprint() => SlotBytes(i)),
            freeList.Contents())
    }

    /** A block none of whose objects changed is the same block. */
    twostate lemma Undisturbed()
      requires old(Valid())
      requires forall o :: o in old(Footprint()) ==> unchanged(o)
      ensures Footprint() == old(Footprint()) && Valid() && View() == old(View())
    {
      assert slots in old(Footprint()) && metadata in old(Footprint()) && freeList in old(Footprint());
      freeList.Undisturbed();
      forall i | 0 <= i < slotCount
        ensures SlotBytes(i) == old(SlotBytes(i))
      {
      }
      assert View().data == old(View()).data;
    }

    /** `cache_block_init`: 256 slots, calloc'ed with their metadata, and all free. */
    constructor (size: nat)
      ensures Valid() && fresh(Footprint()) && this.size == size && slotCount == 256
      ensures View()
           == Block(size, seq(256, _ => Slot(0, false, 0)), seq(256, _ => seq(size, _ => 0)), seq(256, i => i))
    {
      hide SlotBytes, View, CacheFreeList.Valid, CacheFreeList.Contents;
      slotCount, this.size := SLOT_COUNT, size;
      var bytes := Calloc(SLOT_COUNT * size, 0 as byte);
      var meta := Calloc(SLOT_COUNT, Slot(0, false, 0));
      slots, metadata := bytes, meta;
      freeList := new CacheFreeList(0, SLOT_COUNT - 1);
      new;
      ZeroSlots();
      assert Slots(Range(0, slotCount - 1)) == seq(256, i => i);
    }

    /** Zeroed memory reads as zeroed slots. */
    lemma ZeroSlots()
      requires Valid() && slots[..] == seq(slots.Length, _ => 0)
      ensures View() == Block(size, metadata[..], seq(slotCount, _ => seq(size, _ => 0)), freeList.Contents())
    {
      hide Slots, CacheFreeList.Valid, CacheFreeList.Contents, CacheFreeList.Footprint;
      forall i | 0 <= i < slotCount
        ensures SlotBytes(i) == seq(size, _ => 0)
      {
        SlotRanges(i, i, slotCount, size);
        assert seq(slots.Length, _ => 0)[i * size..i * size + size] == seq(size, _ => 0);
      }
    }

    /** Writes the metadata of a slot. */
    method SetMeta(i: nat, m: Slot)
      requires Valid() && i < slotCount
      modifies metadata
      ensures Valid() && Footprint() == old(Footprint())
      ensures View() == old(View()).(meta := old(View()).meta[i := m])
    {
      metadata[i] := m;
      freeList.Undisturbed();
      assert metadata[..] == old(metadata[..])[i := m];
      assert View().data == old(View()).data;
    }

    /** atomic_compare_exchange_strong on the word of a slot: valid and
        unreferenced becomes all clear. */
    method CompareExchange(i: nat) returns (swapped: bool)
      requires Valid() && i < slotCount
      modifies metadata
      ensures Valid() && Footprint() == old(Footprint())
      ensures swapped == CompareExchangeValid(old(View()).meta[i].word).0
      ensures View() == if swapped then old(View()).(meta := old(View()).meta[i := old(View()).meta[i].(word := 0)])
                        else old(View())
    {
      var m := metadata[i];
      swapped := m.word == FLAG_VALID;
      if swapped {
        SetMeta(i, m.(word := 0));
      }
    }

    /** Takes a slot off the free list, -1 if there is none. */
    method PopFree() returns (slot: int)
      requires Valid()
      modifies freeList, freeList.spine
      ensures Valid() && Footprint() <= old(Footprint())
      ensures old(View()).free == [] ==> slot == -1 && View() == old(View())
      ensures old(View()).free != [] ==>
        slot == old(View()).free[0] && View() == old(View()).(free := old(View()).free[1..])
    {
      slot := freeList.Pop();
      assert View().data == old(View()).data;
    }

    /** Overwrites all bytes of a slot: an RDMA read has completed. */
    method Receive(i: nat, bs: seq<byte>)
      requires Valid() && i < slotCount && |bs| == size
      modifies slots
      ensures Valid() && Footprint() == old(Footprint())
      ensures View() == old(View()).(data := old(View()).data[i := bs])
    {
      SlotRanges(i, i, slotCount, size);
      WriteAt(i, i * size, bs);
      assert Splice(old(View()).data[i], 0, bs) == bs;
    }

    /** Stores bytes at a pointer into slot i. */
    method WriteAt(ghost i: nat, ptr: nat, bs: seq<byte>)
      requires Valid() && i < slotCount && i * size <= ptr && ptr + |bs| <= i * size + size
      modifies slots
      ensures Valid() && Footprint() == old(Footprint())
      ensures View() == old(View()).(data := old(View()).data[i := Splice(old(View()).data[i], ptr - i * size, bs)])
    {
      hide Splice, CacheFreeList.Valid, CacheFreeList.Contents;
      SlotRanges(i, i, slotCount, size);
      ghost var all := slots[..];
      CopyIn(ptr, bs);
      freeList.Undisturbed();
      forall j | 0 <= j < slotCount
        ensures SlotBytes(j) == if j == i then Splice(old(SlotBytes(i)), ptr - i * size, bs) else old(SlotBytes(j))
      {
        WrittenSlots(all, ptr, bs, i, j, slotCount, size);
      }
      assert View().data == old(View()).data[i := Splice(old(View()).data[i], ptr - i * size, bs)];
    }

    method CopyIn(ptr: nat, bs: seq<byte>)
      requires ptr + |bs| <= slots.Length
      modifies slots
      ensures slots[..] == Splice(old(slots[..]), ptr, bs)
    {
      forall k | 0 <= k < |bs| {
        slots[ptr + k] := bs[k];
      }
    }

    /** All bytes of a slot. */
    method ReadAll(i: nat) returns (bs: seq<byte>)
      requires Valid() && i < slotCount
      ensures bs == View().data[i]
    {
      SlotRanges(i, i, slotCount, size);
      bs := slots[i * size..i * size + size];
    }

    /** Loads n bytes from a pointer into slot i. */
    method ReadAt(ghost i: nat, ptr: nat, n: nat) returns (bs: seq<byte>)
      requires Valid() && i < slotCount && i * size <= ptr && ptr + n <= i * size + size
      ensures bs == Slice(View().data[i], ptr - i * size, n)
    {
      SlotRanges(i, i, slotCount, size);
      bs := slots[ptr..ptr + n];
      SliceOfSlice(slots[..], i * size, size, ptr - i * size, n);
    }
  }
}
