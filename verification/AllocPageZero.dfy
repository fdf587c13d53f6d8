/** Where the chunk-full test goes wrong: a pool that starts at address 0. The
    exact condition under which no object of any run crosses a page. */
module AllocPageZero {
  import opened Options
  import opened Bits
  import opened Addr
  import opened Alloc

  predicate InOnePage(p: nat, off: nat, size: nat)
    requires p > 0
  {
    off % p + size <= p
  }

  /** A runtime with n types and no chunk yet. */
  function Fresh(m: MemInfo, n: nat): AllocState {
    AllocState(seq(n, _ => []), m.addr)
  }

  predicate Allowed(types: seq<Option<nat>>, calls: seq<Call>) {
    forall i :: 0 <= i < |calls| ==> MayAsk(types, calls[i])
  }

  predicate WithinPages(p: nat, calls: seq<Call>, r: seq<Option<GAddr>>)
    requires p > 0 && |r| == |calls|
  {
    forall i :: 0 <= i < |calls| && r[i].Some? ==> InOnePage(p, r[i].value.offset, calls[i].size)
  }

  /** No call of the run returns an object that crosses a page. */
  predicate PageSafe(m: MemInfo, types: seq<Option<nat>>, calls: seq<Call>)
    requires m.pageSize > 0 && Allowed(types, calls)
  {
    WithinPages(m.pageSize, calls, RunAlloc(m, Fresh(m, |types|), calls).1)
  }

  /** A type whose objects tile the page: its size divides it, or does not fit, or
      there is but one place in the page. */
  predicate Tiles(p: nat, size: Option<nat>)
    requires p > 0
  {
    p == 1 || (size.Some? && (size.value == 0 || size.value > p || p % size.value == 0))
  }

  // One call

  /** A bump pointer in page zero is bumped once more. */
  lemma AllocateReuses(m: MemInfo, a: AllocState, t: nat, size: nat)
    requires IsPowerOfTwo(m.pageSize) && 0 < size <= m.pageSize < TWO_56
    requires t < |a.chunks| && a.chunks[t] != [] && Last(a.chunks[t]) < m.pageSize
    ensures var tail := Last(a.chunks[t]);
      var (a', r) := Allocate(m, a, t, size);
      && r == Some(GAddr(t, tail)) && a'.next == a.next && |a'.chunks| == |a.chunks|
      && a'.chunks[t] != [] && Last(a'.chunks[t]) == tail + size
      && (forall u :: 0 <= u < |a.chunks| && u != t ==> a'.chunks[u] == a.chunks[u])
  {
    var tail := Last(a.chunks[t]);
    ChunkFullIffOutsidePageZero(m.pageSize, tail, size);
    SmallMod(tail, TWO_56);
    SmallMod(tail + size, TWO_64);
  }

  /** With no chunk yet, or the last one outside page zero, a chunk is opened. */
  lemma AllocateOpens(m: MemInfo, a: AllocState, t: nat, size: nat)
    requires IsPowerOfTwo(m.pageSize) && 0 < size <= m.pageSize && UpperBound(m) <= TWO_56
    requires t < |a.chunks| && a.next + m.pageSize < TWO_64
    requires a.chunks[t] != [] ==> m.pageSize <= Last(a.chunks[t]) && Last(a.chunks[t]) + m.pageSize < TWO_64
    ensures var (a', r) := Allocate(m, a, t, size);
      && r == (if a.next < UpperBound(m) then Some(GAddr(t, a.next)) else None)
      && a'.next == a.next + m.pageSize && |a'.chunks| == |a.chunks|
      && a'.chunks[t] != [] && Last(a'.chunks[t]) == a.next + (if a.next < UpperBound(m) then size else 0)
      && (forall u :: 0 <= u < |a.chunks| && u != t ==> a'.chunks[u] == a.chunks[u])
  {
    if a.chunks[t] != [] {
      ChunkFullIffOutsidePageZero(m.pageSize, Last(a.chunks[t]), size);
    }
    SmallMod(a.next + m.pageSize, TWO_64);
    SmallMod(a.next + size, TWO_64);
    if a.next < UpperBound(m) {
      SmallMod(a.next, TWO_56);
    }
  }

  // When sizes divide the page

  /** Bump pointers in page zero are at multiples of their size. */
  ghost predicate StrideOk(p: nat, types: seq<Option<nat>>, a: AllocState)
    requires p > 0
  {
    && |a.chunks| == |types| && a.next % p == 0
    && (forall t :: 0 <= t < |types| ==> Tiles(p, types[t]))
    && (forall t :: 0 <= t < |types| && a.chunks[t] != [] ==>
          var tail := Last(a.chunks[t]);
          && tail <= a.next && p <= a.next
          && (tail < p && p > 1 && tail > 0 ==>
                types[t].Some? && types[t].value > 0 && tail % types[t].value == 0))
  }

  lemma StrideStep(m: MemInfo, types: seq<Option<nat>>, a: AllocState, x: Call)
    requires IsPowerOfTwo(m.pageSize) && 0 < m.pageSize < TWO_56 && UpperBound(m) <= TWO_56
    requires StrideOk(m.pageSize, types, a) && a.next + m.pageSize < TWO_64 && Allowed(types, [x])
    ensures [x][0] == x && x.typeId < |a.chunks|
    ensures var (a', g) := Allocate(m, a, x.typeId, x.size);
      && StrideOk(m.pageSize, types, a')
      && (g.Some? ==> InOnePage(m.pageSize, g.value.offset, x.size))
  {
    var p, t, size := m.pageSize, x.typeId, x.size;
    assert [x][0] == x;
    if size > p {
      return;
    }
    hide Allocate;
    NextPageAligned(p, a.next);
    if size == 0 {
      EmptyStep(m, a, t);
      if a.next > 0 {
        PageZero(p, a.next);
      }
    } else if a.chunks[t] != [] && Last(a.chunks[t]) < p {
      var tail := Last(a.chunks[t]);
      AllocateReuses(m, a, t, size);
      SmallMod(tail, p);
      if p > 1 {
        SmallMod(0, size);
        WholePageBelow(size, tail, p);
        NextPageAligned(size, tail);
      }
    } else {
      AllocateOpens(m, a, t, size);
      if a.next == 0 {
        SmallMod(0, size);
        NextPageAligned(size, 0);
      } else {
        PageZero(p, a.next);
      }
    }
  }

  /** A request for no bytes changes nothing, or opens a chunk. */
  lemma EmptyStep(m: MemInfo, a: AllocState, t: nat)
    requires IsPowerOfTwo(m.pageSize) && 0 < m.pageSize && t < |a.chunks| && a.next + m.pageSize < TWO_64
    requires a.chunks[t] != [] ==> Last(a.chunks[t]) <= a.next
    ensures var (a', g) := Allocate(m, a, t, 0);
      a' == a || (
        && a'.next == a.next + m.pageSize && |a'.chunks| == |a.chunks|
        && a'.chunks[t] != [] && Last(a'.chunks[t]) == a.next
        && (forall u :: 0 <= u < |a.chunks| && u != t ==> a'.chunks[u] == a.chunks[u]))
    ensures forall off: nat :: InOnePage(m.pageSize, off, 0)
  {
    SmallMod(a.next + m.pageSize, TWO_64);
    SmallMod(a.next, TWO_64);
    if a.chunks[t] != [] {
      BumpByNothing(a, t);
    }
  }

  lemma {:induction false} StrideKeepsPages(m: MemInfo, types: seq<Option<nat>>, a: AllocState, calls: seq<Call>)
    requires IsPowerOfTwo(m.pageSize) && 0 < m.pageSize < TWO_56 && UpperBound(m) <= TWO_56
    requires StrideOk(m.pageSize, types, a) && Allowed(types, calls) && Unwrapped(m, a, calls)
    ensures WithinPages(m.pageSize, calls, RunAlloc(m, a, calls).1)
    decreases |calls|
  {
    if calls != [] {
      hide StrideOk, Allocate, InOnePage;
      var (a', g) := Allocate(m, a, calls[0].typeId, calls[0].size);
      assert [calls[0]][0] == calls[0];
      StrideStep(m, types, a, calls[0]);
      assert forall i :: 1 <= i < |calls| ==> calls[i] == calls[1..][i - 1];
      StrideKeepsPages(m, types, a', calls[1..]);
      var r := RunAlloc(m, a, calls).1;
      assert forall i :: 1 <= i < |calls| ==> r[i] == RunAlloc(m, a', calls[1..]).1[i - 1];
    }
  }

  // Runs that go wrong

  /** Three objects of three bytes in four-byte pages at address 0: the second
      crosses a page and the third overlaps it. */
  lemma PageZeroOverlap()
    ensures RunAlloc(MemInfo(0, 4, 2), Fresh(MemInfo(0, 4, 2), 1), [Call(0, 3), Call(0, 3), Call(0, 3)]).1
         == [Some(GAddr(0, 0)), Some(GAddr(0, 3)), Some(GAddr(0, 4))]
  {
    var m, x := MemInfo(0, 4, 2), Call(0, 3);
    assert Pow2(2) == 4;
    var a0 := Fresh(m, 1);
    AllocateOpens(m, a0, 0, 3);
    var a1 := Allocate(m, a0, 0, 3).0;
    AllocateReuses(m, a1, 0, 3);
    var a2 := Allocate(m, a1, 0, 3).0;
    AllocateOpens(m, a2, 0, 3);
    assert [x, x, x][1..] == [x, x] && [x, x][1..] == [x] && [x][1..] == [];
  }

  /** The objects of type t are packed in page zero from the bump pointer on; the
      last of n calls crosses the page. */
  lemma {:induction false} PackedUpTo(m: MemInfo, a: AllocState, t: nat, size: nat, n: nat)
    requires IsPowerOfTwo(m.pageSize) && 0 < size <= m.pageSize < TWO_56 && a.next + m.pageSize < TWO_64
    requires t < |a.chunks| && a.chunks[t] != [] && Last(a.chunks[t]) + n * size < m.pageSize
    requires Last(a.chunks[t]) + n * size + size > m.pageSize
    ensures Unwrapped(m, a, seq(n + 1, _ => Call(t, size)))
    ensures !WithinPages(m.pageSize, seq(n + 1, _ => Call(t, size)), RunAlloc(m, a, seq(n + 1, _ => Call(t, size))).1)
    decreases n
  {
    hide Allocate;
    var calls := seq(n + 1, _ => Call(t, size));
    var r := RunAlloc(m, a, calls).1;
    assert n * size >= 0;
    AllocateReuses(m, a, t, size);
    var a' := Allocate(m, a, t, size).0;
    assert calls[0] == Call(t, size) && calls[1..] == seq(n, _ => Call(t, size));
    if n == 0 {
      SmallMod(Last(a.chunks[t]), m.pageSize);
      assert !InOnePage(m.pageSize, r[0].value.offset, calls[0].size);
    } else {
      assert n * size == (n - 1) * size + size;
      PackedUpTo(m, a', t, size, n - 1);
      var rest := RunAlloc(m, a', calls[1..]).1;
      var i :| 0 <= i < n && rest[i].Some? && !InOnePage(m.pageSize, rest[i].value.offset, calls[1..][i].size);
      assert r[i + 1] == rest[i] && calls[i + 1] == calls[1..][i];
    }
  }

  /** A first call of one size in page zero, and then n + 1 of another. */
  function Mixed(t: nat, first: nat, size: nat, n: nat): (r: seq<Call>)
    ensures |r| == n + 2
  {
    [Call(t, first)] + seq(n + 1, _ => Call(t, size))
  }

  lemma MixedCrosses(m: MemInfo, types: seq<Option<nat>>, t: nat, first: nat, size: nat, n: nat)
    requires IsPowerOfTwo(m.pageSize) && m.addr == 0 && m.pageCount > 0
    requires m.pageSize < TWO_56 && UpperBound(m) <= TWO_56 && t < |types|
    requires 0 < first < m.pageSize && 0 < size <= m.pageSize
    requires first + n * size < m.pageSize < first + n * size + size
    requires Allowed(types, Mixed(t, first, size, n))
    ensures Unwrapped(m, Fresh(m, |types|), Mixed(t, first, size, n)) && !PageSafe(m, types, Mixed(t, first, size, n))
  {
    hide Allocate;
    var a, calls := Fresh(m, |types|), Mixed(t, first, size, n);
    assert m.pageSize <= UpperBound(m) by { MulBound(m.pageSize, m.pageCount); }
    AllocateOpens(m, a, t, first);
    var a1 := Allocate(m, a, t, first).0;
    PackedUpTo(m, a1, t, size, n);
    assert calls[1..] == seq(n + 1, _ => Call(t, size));
    var r, rest := RunAlloc(m, a, calls).1, RunAlloc(m, a1, calls[1..]).1;
    var i :| 0 <= i < n + 1 && rest[i].Some? && !InOnePage(m.pageSize, rest[i].value.offset, calls[1..][i].size);
    assert r[i + 1] == rest[i] && calls[i + 1] == calls[1..][i];
  }

  /** The last place in the page that is too small for one more object. */
  lemma LastStride(p: nat, size: nat) returns (n: nat)
    requires 0 < size <= p && p % size != 0
    ensures size + n * size < p < size + n * size + size
  {
    var k := p / size;
    assert p == size * k + p % size;
    if k == 0 {
      SmallMod(p, size);
    }
    n := k - 1;
    assert size + n * size == size * k;
  }

  /** Some allowed run goes wrong if a type does not tile the page. */
  lemma UntiledCrosses(m: MemInfo, types: seq<Option<nat>>, t: nat) returns (calls: seq<Call>)
    requires IsPowerOfTwo(m.pageSize) && m.addr == 0 && m.pageCount > 0
    requires m.pageSize < TWO_56 && UpperBound(m) <= TWO_56
    requires t < |types| && m.pageSize > 0 && !Tiles(m.pageSize, types[t])
    ensures Allowed(types, calls) && Unwrapped(m, Fresh(m, |types|), calls) && !PageSafe(m, types, calls)
  {
    if types[t].Some? {
      var size := types[t].value;
      var n := LastStride(m.pageSize, size);
      MixedCrosses(m, types, t, size, size, n);
      calls := Mixed(t, size, size, n);
    } else {
      assert 0 * m.pageSize == 0;
      MixedCrosses(m, types, t, 1, m.pageSize, 0);
      calls := Mixed(t, 1, m.pageSize, 0);
    }
  }

  /** Outside page zero every object is a page start. */
  lemma PageStartsAreSafe(m: MemInfo, types: seq<Option<nat>>, calls: seq<Call>)
    requires PoolOk(m) && Allowed(types, calls) && Unwrapped(m, Fresh(m, |types|), calls)
    ensures PageSafe(m, types, calls)
  {
    SequentialAllocation(m, Fresh(m, |types|), calls);
  }

  /** No allowed run, however many calls of whatever types it makes, returns an object
      that crosses a page, if and only if the pool starts outside page zero or every
      type tiles the page: registered types by a size that divides it, reserved types
      only if pages have one byte. */
  lemma PageSafeExactly(m: MemInfo, types: seq<Option<nat>>)
    requires IsPowerOfTwo(m.pageSize) && m.addr % m.pageSize == 0
    requires m.pageCount > 0 && 0 < m.pageSize < TWO_56 && UpperBound(m) <= TWO_56
    ensures (forall calls :: Allowed(types, calls) && Unwrapped(m, Fresh(m, |types|), calls) ==>
               PageSafe(m, types, calls))
       <==> m.addr > 0 || forall t :: 0 <= t < |types| ==> Tiles(m.pageSize, types[t])
  {
    hide PageSafe, Unwrapped, Tiles;
    if m.addr > 0 {
      WholePageBelow(m.pageSize, 0, m.addr);
      forall calls | Allowed(types, calls) && Unwrapped(m, Fresh(m, |types|), calls)
        ensures PageSafe(m, types, calls)
      {
        PageStartsAreSafe(m, types, calls);
      }
    } else if t :| 0 <= t < |types| && !Tiles(m.pageSize, types[t]) {
      var calls := UntiledCrosses(m, types, t);
    } else {
      forall calls | Allowed(types, calls) && Unwrapped(m, Fresh(m, |types|), calls)
        ensures PageSafe(m, types, calls)
      {
        TiledIsSafe(m, types, calls);
      }
    }
  }

  lemma TiledIsSafe(m: MemInfo, types: seq<Option<nat>>, calls: seq<Call>)
    requires IsPowerOfTwo(m.pageSize) && 0 < m.pageSize < TWO_56 && UpperBound(m) <= TWO_56 && m.addr == 0
    requires forall t :: 0 <= t < |types| ==> Tiles(m.pageSize, types[t])
    requires Allowed(types, calls) && Unwrapped(m, Fresh(m, |types|), calls)
    ensures PageSafe(m, types, calls)
  {
    SmallMod(0, m.pageSize);
    StrideKeepsPages(m, types, Fresh(m, |types|), calls);
  }
}
