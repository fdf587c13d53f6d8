/** The free list of a cache block: a singly linked list of slot ranges, and
    the queue of slots it stands for. */
module FreeList {

  datatype Range = Range(begin: int, back: int)

  function Slots(r: Range): seq<int>
    requires r.begin <= r.back
  {
    seq(r.back - r.begin + 1, i => r.begin + i)
  }

  ghost predicate NonEmptyRanges(rs: seq<Range>) {
    forall i :: 0 <= i < |rs| ==> rs[i].begin <= rs[i].back
  }

  function Flatten(rs: seq<Range>): seq<int>
    requires NonEmptyRanges(rs)
  {
    if rs == [] then [] else Slots(rs[0]) + Flatten(rs[1..])
  }

  lemma {:induction false} FlattenAppend(rs: seq<Range>, r: Range)
    requires NonEmptyRanges(rs) && r.begin <= r.back
    ensures Flatten(rs + [r]) == Flatten(rs) + Slots(r)
  {
    if rs == [] {
      assert (rs + [r])[1..] == [];
    } else {
      assert (rs + [r])[1..] == rs[1..] + [r];
      FlattenAppend(rs[1..], r);
    }
  }

  lemma FlattenAppendSlot(rs: seq<Range>, slot: int)
    requires NonEmptyRanges(rs)
    ensures Flatten(rs + [Range(slot, slot)]) == Flatten(rs) + [slot]
  {
    FlattenAppend(rs, Range(slot, slot));
    assert Slots(Range(slot, slot)) == [slot];
  }

  /** Growing the last range by one slot appends that slot to the queue. */
  lemma {:induction false} FlattenExtendLast(rs: seq<Range>)
    requires rs != [] && NonEmptyRanges(rs)
    ensures var n := |rs| - 1;
      Flatten(rs[n := Range(rs[n].begin, rs[n].back + 1)]) == Flatten(rs) + [rs[n].back + 1]
  {
    var n := |rs| - 1;
    var last := rs[n];
    var grown := Range(last.begin, last.back + 1);
    assert rs == rs[..n] + [last];
    assert rs[n := grown] == rs[..n] + [grown];
    FlattenAppend(rs[..n], last);
    FlattenAppend(rs[..n], grown);
    assert Slots(grown) == Slots(last) + [last.back + 1];
  }

  /** Dropping the first slot of the first range, or a one-slot range as a
      whole, removes the front of the queue. */
  lemma FlattenFront(rs: seq<Range>)
    requires rs != [] && NonEmptyRanges(rs)
    ensures Flatten(rs) != [] && Flatten(rs)[0] == rs[0].begin
    ensures rs[0].begin == rs[0].back ==> Flatten(rs[1..]) == Flatten(rs)[1..]
    ensures rs[0].begin < rs[0].back ==>
      Flatten(rs[0 := Range(rs[0].begin + 1, rs[0].back)]) == Flatten(rs)[1..]
  {
    var r := rs[0];
    if r.begin < r.back {
      var shrunk := Range(r.begin + 1, r.back);
      assert rs[0 := shrunk][1..] == rs[1..];
      assert Slots(r)[1..] == Slots(shrunk);
    }
  }

  /** The queue is empty exactly when the list has no range, so `head == NULL` is the
      test for it. */
  lemma EmptyIffNoRange(rs: seq<Range>)
    requires NonEmptyRanges(rs)
    ensures Flatten(rs) == [] <==> rs == []
  {
    if rs != [] {
      FlattenFront(rs);
    }
  }

  class Node {
    var begin: int
    var back: int
    var next: Node?

    constructor (begin: int, back: int)
      ensures this.begin == begin && this.back == back && next == null
    {
      this.begin, this.back, next := begin, back, null;
    }
  }

  class CacheFreeList {
    var head: Node?
    var tail: Node?
    ghost var spine: seq<Node>  // the nodes in list order

    ghost function Footprint(): set<object>
      reads this
    {
      {this} + set n: object | n in spine
    }

    ghost predicate Valid()
      reads this, spine
    {
      && (if spine == [] then head == null && tail == null
          else head == spine[0] && tail == spine[|spine| - 1])
      && (forall i, j :: 0 <= i < j < |spine| ==> spine[i] != spine[j])
      && (forall i :: 0 <= i < |spine| ==> spine[i].next == Successor(i))
      && NonEmptyRanges(Ranges())
    }

    ghost function Successor(i: nat): Node?
      requires i < |spine|
      reads this
    {
      if i + 1 < |spine| then spine[i + 1] else null
    }

    ghost function Ranges(): (rs: seq<Range>)
      reads this, spine
      ensures |rs| == |spine|
    {
      seq(|spine|, i requires 0 <= i < |spine| reads this, spine => Range(spine[i].begin, spine[i].back))
    }

    ghost function Contents(): seq<int>
      requires Valid()
      reads this, spine
    {
      Flatten(Ranges())
    }

    /** A list none of whose objects changed is the same list. */
    twostate lemma Undisturbed()
      requires old(Valid())
      requires forall o :: o in old(Footprint()) ==> unchanged(o)
      ensures Footprint() == old(Footprint()) && Valid() && Contents() == old(Contents())
    {
      assert this in old(Footprint());
      forall i | 0 <= i < |spine|
        ensures spine[i].next == old(spine[i].next)
        ensures spine[i].begin == old(spine[i].begin) && spine[i].back == old(spine[i].back)
      {
        assert spine[i] in old(Footprint());
      }
      assert Ranges() == old(Ranges());
    }

    constructor (slotBegin: int, slotBack: int)
      requires slotBegin <= slotBack
      ensures Valid() && fresh(Footprint())
      ensures Contents() == Slots(Range(slotBegin, slotBack))
    {
      var node := new Node(slotBegin, slotBack);
      head, tail, spine := node, node, [node];
      new;
      FlattenAppend([], Range(slotBegin, slotBack));
      assert Ranges() == [] + [Range(slotBegin, slotBack)];
    }

    /** Appends one slot to the queue. The source follows `tail` without a null
        test, so the list must not be empty. */
    method Push(slot: int)
      requires Valid() && Contents() != []
      modifies this, spine
      ensures Valid() && fresh(Footprint() - old(Footprint()))
      ensures Contents() == old(Contents()) + [slot]
    {
      hide Valid, Ranges, Flatten, Slots, NonEmptyRanges;
      ghost var rs := Ranges();
      InShape();
      if tail != null && tail.back == slot - 1 {
        GrowTail(slot);
        FlattenExtendLast(rs);
      } else {
        AppendNode(slot);
        FlattenAppendSlot(rs, slot);
      }
    }

    lemma InShape()
      requires Valid()
      ensures NonEmptyRanges(Ranges()) && |Ranges()| == |spine| && (tail == null <==> spine == [])
      ensures Contents() != [] <==> spine != []
      ensures spine != [] ==> tail in spine
    {
      EmptyIffNoRange(Ranges());
    }

    /** The last range takes in one slot more. */
    method GrowTail(slot: int)
      requires Valid() && spine != [] && tail.back == slot - 1
      modifies tail`back
      ensures Valid() && Footprint() == old(Footprint())
      ensures var rs := old(Ranges()); Ranges() == rs[|rs| - 1 := Range(rs[|rs| - 1].begin, slot)]
      ensures var rs := old(Ranges()); rs[|rs| - 1].back + 1 == slot
    {
      ghost var rs := Ranges();
      assert rs[|rs| - 1].back + 1 == slot;
      tail.back := slot;
      assert Ranges() == rs[|rs| - 1 := Range(rs[|rs| - 1].begin, slot)];
    }

    /** A new node behind the last one. */
    method AppendNode(slot: int)
      requires Valid() && spine != []
      modifies this, tail`next
      ensures Valid() && fresh(Footprint() - old(Footprint()))
      ensures Ranges() == old(Ranges()) + [Range(slot, slot)]
    {
      ghost var rs := Ranges();
      var newTail := new Node(slot, slot);
      tail.next := newTail;
      tail := newTail;
      spine := spine + [newTail];
      assert Ranges() == rs + [Range(slot, slot)];
    }

    /** Takes the front of the queue, or answers -1 when it is empty. */
    method Pop() returns (slot: int)
      requires Valid()
      modifies this, spine
      ensures Valid() && Footprint() <= old(Footprint())
      ensures old(Contents()) == [] ==> slot == -1 && Contents() == []
      ensures old(Contents()) != [] ==>
        slot == old(Contents())[0] && Contents() == old(Contents())[1..]
    {
      hide Flatten, Slots;
      ghost var rs := Ranges();
      EmptyIffNoRange(rs);
      if head == null {
        return -1;
      }
      FlattenFront(rs);
      if head.begin != head.back {
        slot := head.begin;
        head.begin := head.begin + 1;
        assert Ranges() == rs[0 := Range(rs[0].begin + 1, rs[0].back)];
        return;
      }
      slot := head.begin;
      head := head.next;
      if head == null {
        tail := null;
      }
      spine := spine[1..];
      assert Ranges() == rs[1..];
    }
  }
}
