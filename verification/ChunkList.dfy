/** The chunk references of one type: a singly linked list with a tail pointer. */
module ChunkList {
  import opened Bits

  class ChunkRef {
    var next: ChunkRef?
    var nextAddr: nat

    constructor (nextAddr: nat)
      ensures this.nextAddr == nextAddr && next == null
    {
      this.nextAddr, next := nextAddr, null;
    }
  }

  class ChunkRefList {
    var head: ChunkRef?
    var tail: ChunkRef?
    ghost var spine: seq<ChunkRef>  // the nodes in list order

    ghost function Footprint(): set<object>
      reads this
    {
      {this} + set n: object | n in spine
    }

    ghost function Successor(i: nat): ChunkRef?
      requires i < |spine|
      reads this
    {
      if i + 1 < |spine| then spine[i + 1] else null
    }

    ghost predicate Valid()
      reads this, spine
    {
      && (if spine == [] then head == null && tail == null
          else head == spine[0] && tail == spine[|spine| - 1])
      && (forall i, j :: 0 <= i < j < |spine| ==> spine[i] != spine[j])
      && (forall i :: 0 <= i < |spine| ==> spine[i].next == Successor(i))
    }

    /** The bump pointers in list order. */
    ghost function Contents(): (c: seq<nat>)
      reads this, spine
      ensures |c| == |spine|
    {
      seq(|spine|, i requires 0 <= i < |spine| reads this, spine => spine[i].nextAddr)
    }

    /** A list none of whose objects changed is the same list. */
    twostate lemma Undisturbed()
      requires old(Valid())
      requires forall o :: o in old(Footprint()) ==> unchanged(o)
      ensures Footprint() == old(Footprint()) && Valid() && Contents() == old(Contents())
    {
      assert this in old(Footprint());
      forall i | 0 <= i < |spine|
        ensures spine[i].next == old(spine[i].next) && spine[i].nextAddr == old(spine[i].nextAddr)
      {
        assert spine[i] in old(Footprint());
      }
    }

    constructor ()
      ensures Valid() && fresh(Footprint()) && Contents() == []
    {
      head, tail, spine := null, null, [];
    }

    /** Appends a chunk and makes it the tail. */
    method Insert(nextAddr: nat)
      requires Valid()
      modifies this, spine
      ensures Valid() && fresh(Footprint() - old(Footprint()))
      ensures Contents() == old(Contents()) + [nextAddr]
    {
      var ref := new ChunkRef(nextAddr);
      if head != null {
        tail.next := ref;
        tail := ref;
      } else {
        head, tail := ref, ref;
      }
      spine := spine + [ref];
    }

    /** atomic_fetch_add on the bump pointer of the tail. */
    method FetchAddTail(size: nat) returns (addr: nat)
      requires Valid() && Contents() != []
      modifies spine
      ensures Valid() && Footprint() == old(Footprint())
      ensures addr == old(Contents())[|old(Contents())| - 1]
      ensures Contents() == old(Contents())[|old(Contents())| - 1 := Add64(addr, size)]
    {
      addr := tail.nextAddr;
      tail.nextAddr := Add64(addr, size);
    }
  }
}
