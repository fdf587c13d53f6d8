/** When the eviction loop ends. */
module Eviction {
  import opened SlotWord
  import opened CacheSpec

  /** Every slot index is drawn again and again. */
  ghost predicate Recurs(draws: nat -> nat) {
    forall i, n: nat :: 0 <= i < 256 ==> DrawnFrom(draws, i, n)
  }

  ghost predicate DrawnFrom(draws: nat -> nat, i: int, n: nat) {
    exists m: nat :: n <= m && draws(m) % 256 == i
  }

  /** There are such draws: those that count up. */
  lemma CountingRecurs()
    ensures Recurs(n => n)
  {
    var draws: nat -> nat := n => n;
    forall i, n: nat | 0 <= i < 256
      ensures DrawnFrom(draws, i, n)
    {
      assert draws(256 * n + i) % 256 == i;
    }
  }

  /** The loop leaves at draw n. */
  predicate EndsAt(s: State, t: nat, draws: nat -> nat, n: nat) {
    Evictable(s, t, draws(n) % 256)
  }

  /** A slot of a full cache can be evicted if and only if nobody references it. */
  lemma EvictableIffUnpinned(s: State, t: nat, i: int)
    requires Inv(s) && IsSlot(s, t, i) && s.blocks[t].free == []
    ensures Live(s, t, i)
    ensures Evictable(s, t, i) <==> Pins(s, t, i) == 0
  {
    assert FreeListOk(s, t, NoHole);
    QuiescentSteps(SlotAt(s, t, i).word);
  }

  /** With draws in which every index recurs the loop over a full cache ends, from
      whatever point of the stream, if and only if some slot is unreferenced; with
      all slots referenced no draw can end it. */
  lemma LoopEndsExactly(s: State, t: nat, draws: nat -> nat, from: nat)
    requires Inv(s) && HasBlock(s, t) && s.blocks[t].free == [] && Recurs(draws)
    ensures (exists n :: from <= n && EndsAt(s, t, draws, n))
       <==> (exists i :: IsSlot(s, t, i) && Pins(s, t, i) == 0)
  {
    hide Inv, Evictable, Pins, Recurs;
    if n :| from <= n && EndsAt(s, t, draws, n) {
      var i := draws(n) % 256;
      assert IsSlot(s, t, i) by { EvictableIsSlot(s, t, i); }
      EvictableIffUnpinned(s, t, i);
    }
    if i :| IsSlot(s, t, i) && Pins(s, t, i) == 0 {
      EvictableIffUnpinned(s, t, i);
      var n := NextDraw(draws, i, from);
      assert EndsAt(s, t, draws, n);
    }
  }

  lemma EvictableIsSlot(s: State, t: nat, i: int)
    requires Evictable(s, t, i)
    ensures IsSlot(s, t, i)
  {
  }

  lemma NextDraw(draws: nat -> nat, i: int, from: nat) returns (n: nat)
    requires Recurs(draws) && 0 <= i < 256
    ensures from <= n && draws(n) % 256 == i
  {
    assert DrawnFrom(draws, i, from);
    n :| from <= n && draws(n) % 256 == i;
  }

  /** The distance to the next draw that ends the loop. */
  ghost function Distance(s: State, t: nat, draws: nat -> nat, from: nat, last: nat): (d: nat)
    requires from <= last && EndsAt(s, t, draws, last)
    decreases last - from
    ensures from + d <= last && EndsAt(s, t, draws, from + d)
    ensures forall k :: from <= k < from + d ==> !EndsAt(s, t, draws, k)
  {
    if EndsAt(s, t, draws, from) then 0 else 1 + Distance(s, t, draws, from + 1, last)
  }

  /** A draw that does not end the loop brings the one that does nearer. */
  lemma NearerBy(s: State, t: nat, draws: nat -> nat, from: nat, last: nat)
    requires from <= last && EndsAt(s, t, draws, last) && !EndsAt(s, t, draws, from)
    ensures from < last && Distance(s, t, draws, from, last) == 1 + Distance(s, t, draws, from + 1, last)
  {
  }
}
