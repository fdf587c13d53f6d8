/** `disagg_alloc`, one call at a time: per-type chunk lists with a bump pointer
    and one global chunk counter, in 64-bit arithmetic. */
module Alloc {
  import opened Options
  import opened Bits
  import opened Addr

  /** `chunks[t]` holds the bump pointers (`next_addr`) of the chunk list of type
      t in list order; `next` is the start of the next chunk to hand out. */
  datatype AllocState = AllocState(chunks: seq<seq<nat>>, next: nat)

  function Last<T>(s: seq<T>): T
    requires s != []
  {
    s[|s| - 1]
  }

  /** The test by which the last chunk counts as full. It loads the bump pointer
      twice, and its mask keeps the page offset of the second load, not the page
      start. */
  predicate TestFull(p: nat, first: nat, second: nat, size: nat)
    requires p > 0
  {
    Add64(first, size) > Add64(And(second, p - 1), p)
  }

  /** The test when nothing happens between its loads. */
  predicate ChunkFull(p: nat, tail: nat, size: nat)
    requires p > 0
  {
    TestFull(p, tail, tail, size)
  }

  function OpenChunk(m: MemInfo, a: AllocState, t: nat): AllocState
    requires t < |a.chunks|
  {
    AllocState(a.chunks[t := a.chunks[t] + [a.next]], Add64(a.next, m.pageSize))
  }

  function Bump(a: AllocState, t: nat, size: nat): (AllocState, Option<GAddr>)
    requires t < |a.chunks| && a.chunks[t] != []
  {
    var list := a.chunks[t];
    var off := Last(list);
    (a.(chunks := a.chunks[t := list[|list| - 1 := Add64(off, size)]]), Some(GAddr(t, off % TWO_56)))
  }

  function Allocate(m: MemInfo, a: AllocState, t: nat, size: nat): (AllocState, Option<GAddr>)
    requires m.pageSize > 0 && t < |a.chunks|
  {
    if size > m.pageSize then (a, None)
    else if a.chunks[t] == [] || ChunkFull(m.pageSize, Last(a.chunks[t]), size) then
      var a' := OpenChunk(m, a, t);
      if a.next >= UpperBound(m) then (a', None) else Bump(a', t, size)
    else Bump(a, t, size)
  }

  /** Bump pointers lie outside page zero, behind the chunk counter. */
  ghost predicate AllocOk(m: MemInfo, a: AllocState) {
    && m.pageSize > 0
    && a.next % m.pageSize == 0
    && m.addr <= a.next
    && forall t :: 0 <= t < |a.chunks| && a.chunks[t] != [] ==> m.pageSize <= Last(a.chunks[t]) <= a.next
  }

  /** The chunk-full test answers yes exactly outside page zero, whether or not
      the object would still fit. */
  lemma ChunkFullIffOutsidePageZero(p: nat, tail: nat, size: nat)
    requires IsPowerOfTwo(p) && 0 < size <= p && tail + p < TWO_64
    ensures ChunkFull(p, tail, size) <==> tail >= p
  {
    PageMasks(tail, p);
    SmallMod(tail + size, TWO_64);
    SmallMod(tail % p + p, TWO_64);
    PageZero(p, tail);
  }

  lemma PageZero(p: nat, x: nat)
    requires p > 0
    ensures x < p ==> x % p == x
    ensures x >= p ==> x - x % p >= p
  {
    if x < p {
      SmallMod(x, p);
    } else {
      PageStartAligned(p, x);
      WholePageBelow(p, 0, x - x % p);
    }
  }

  /** Aligned addresses below an aligned bound leave a whole page below it. */
  lemma WholePageBelow(p: nat, x: nat, bound: nat)
    requires p > 0 && x % p == 0 && bound % p == 0 && x < bound
    ensures x + p <= bound
  {
    assert x == p * (x / p) && bound == p * (bound / p);
    assert p * (bound / p - x / p) == bound - x;
    MulBound(p, bound / p - x / p);
  }

  lemma NextPageAligned(p: nat, x: nat)
    requires p > 0 && x % p == 0
    ensures (x + p) % p == 0
  {
    assert x == p * (x / p);
    assert x + p == p * (x / p + 1);
    DivModUnique(x + p, p, x / p + 1, 0);
  }

  lemma UpperBoundAligned(m: MemInfo)
    requires PoolOk(m)
    ensures UpperBound(m) % m.pageSize == 0
  {
    var p := m.pageSize;
    assert m.addr == p * (m.addr / p);
    assert UpperBound(m) == p * (m.addr / p + m.pageCount);
    DivModUnique(UpperBound(m), p, m.addr / p + m.pageCount, 0);
  }

  /** A request for no bytes at all finds pages zero and one never full. */
  lemma EmptyRequest(p: nat, tail: nat)
    requires IsPowerOfTwo(p) && 0 < p && tail + p < TWO_64
    ensures ChunkFull(p, tail, 0) <==> tail >= 2 * p
  {
    hide And;
    PageMasks(tail, p);
    SmallMod(tail, TWO_64);
    SmallMod(tail % p + p, TWO_64);
    WholePages(p, tail);
  }

  lemma WholePages(p: nat, x: nat)
    requires p > 0
    ensures x - x % p > p <==> x >= 2 * p
  {
    var q := x / p;
    assert x == p * q + x % p;
    if q >= 2 {
      MulMonotone(p, 2, q);
    } else {
      MulMonotone(p, q, 1);
    }
  }

  /** Whether a call opens a chunk: always, but for requests of no bytes while the
      last chunk is the one at page one. */
  predicate Opens(m: MemInfo, a: AllocState, t: nat, size: nat)
    requires t < |a.chunks|
  {
    a.chunks[t] == [] || size > 0 || Last(a.chunks[t]) >= 2 * m.pageSize
  }

  /** One call: an oversized request changes nothing; a call that opens a chunk hands
      out its page start, unless the pool is drained; any other call asks for no
      bytes and gets the bump pointer. */
  lemma AllocateMeaning(m: MemInfo, a: AllocState, t: nat, size: nat)
    requires PoolOk(m) && AllocOk(m, a) && t < |a.chunks|
    requires a.next + m.pageSize < TWO_64
    ensures var (a', r) := Allocate(m, a, t, size);
      && AllocOk(m, a') && |a'.chunks| == |a.chunks|
      && a'.next == (if size <= m.pageSize && Opens(m, a, t, size) then a.next + m.pageSize else a.next)
      && (forall u :: 0 <= u < |a.chunks| && u != t ==> a'.chunks[u] == a.chunks[u])
      && r == (if size > m.pageSize then None
               else if !Opens(m, a, t, size) then Some(GAddr(t, Last(a.chunks[t]) % TWO_56))
               else if a.next < UpperBound(m) then Some(GAddr(t, a.next)) else None)
    ensures a.next < UpperBound(m) ==> a.next + m.pageSize <= UpperBound(m)
  {
    hide ChunkFull, UpperBound;
    var p := m.pageSize;
    if a.next < UpperBound(m) {
      UpperBoundAligned(m);
      WholePageBelow(p, a.next, UpperBound(m));
    }
    if size <= p {
      SmallMod(a.next + p, TWO_64);
      NextPageAligned(p, a.next);
      SmallMod(a.next + size, TWO_64);
      if a.chunks[t] != [] {
        FullWhenOpens(m, a, t, size);
        if !Opens(m, a, t, size) {
          BumpByNothing(a, t);
        }
      }
      if a.next < UpperBound(m) {
        SmallMod(a.next, TWO_56);
      }
    }
  }

  lemma FullWhenOpens(m: MemInfo, a: AllocState, t: nat, size: nat)
    requires PoolOk(m) && AllocOk(m, a) && t < |a.chunks| && a.chunks[t] != [] && size <= m.pageSize
    requires a.next + m.pageSize < TWO_64
    ensures ChunkFull(m.pageSize, Last(a.chunks[t]), size) <==> Opens(m, a, t, size)
    ensures !Opens(m, a, t, size) ==> size == 0 && Last(a.chunks[t]) < TWO_64
  {
    hide ChunkFull;
    EmptyRequest(m.pageSize, Last(a.chunks[t]));
    if size > 0 {
      ChunkFullIffOutsidePageZero(m.pageSize, Last(a.chunks[t]), size);
    }
  }

  lemma BumpByNothing(a: AllocState, t: nat)
    requires t < |a.chunks| && a.chunks[t] != [] && Last(a.chunks[t]) < TWO_64
    ensures Bump(a, t, 0) == (a, Some(GAddr(t, Last(a.chunks[t]) % TWO_56)))
  {
    var list := a.chunks[t];
    SmallMod(Last(list), TWO_64);
    assert list[|list| - 1 := Last(list)] == list;
    assert a.chunks[t := list] == a.chunks;
  }

  datatype Call = Call(typeId: nat, size: nat)

  /** The calls that types allow: a registered type has its own size, a reserved one
      (None) takes the size from the caller. */
  predicate MayAsk(types: seq<Option<nat>>, x: Call) {
    x.typeId < |types| && (types[x.typeId].Some? ==> x.size == types[x.typeId].value)
  }

  /** A sequence of calls on any types; element i of the second component is
      what call i returned. */
  function RunAlloc(m: MemInfo, a: AllocState, calls: seq<Call>): (r: (AllocState, seq<Option<GAddr>>))
    requires m.pageSize > 0 && forall i :: 0 <= i < |calls| ==> calls[i].typeId < |a.chunks|
    ensures |r.1| == |calls| && |r.0.chunks| == |a.chunks|
    decreases |calls|
  {
    if calls == [] then (a, [])
    else
      var (a1, g) := Allocate(m, a, calls[0].typeId, calls[0].size);
      assert |a1.chunks| == |a.chunks|;
      var (a2, gs) := RunAlloc(m, a1, calls[1..]);
      (a2, [g] + gs)
  }

  /** The chunk counter does not wrap around in the run. */
  predicate Unwrapped(m: MemInfo, a: AllocState, calls: seq<Call>)
    requires m.pageSize > 0 && forall i :: 0 <= i < |calls| ==> calls[i].typeId < |a.chunks|
    decreases |calls|
  {
    calls != [] ==>
      && a.next + m.pageSize < TWO_64
      && Unwrapped(m, Allocate(m, a, calls[0].typeId, calls[0].size).0, calls[1..])
  }

  /** Answers to calls that are made when the chunk counter stands at next: every
      object of one byte or more lies in one page of the pool, at the page start, such
      objects come at strictly increasing pages (so no two overlap, and a page has one
      of them and one type), and once a call that could be served finds the pool
      drained no call for one byte or more succeeds. */
  ghost predicate InOrder(m: MemInfo, next: nat, calls: seq<Call>, r: seq<Option<GAddr>>)
    requires m.pageSize > 0 && |r| == |calls|
  {
    Placed(m, next, calls, r) && Spread(m, calls, r) && Final(m, next, calls, r)
  }

  ghost predicate Placed(m: MemInfo, next: nat, calls: seq<Call>, r: seq<Option<GAddr>>)
    requires m.pageSize > 0 && |r| == |calls|
  {
    forall i :: 0 <= i < |calls| && r[i].Some? && calls[i].size > 0 ==>
      && r[i].value.typeId == calls[i].typeId
      && next <= r[i].value.offset
      && r[i].value.offset % m.pageSize == 0
      && calls[i].size <= m.pageSize
      && r[i].value.offset + m.pageSize <= UpperBound(m)
  }

  ghost predicate Spread(m: MemInfo, calls: seq<Call>, r: seq<Option<GAddr>>)
    requires |r| == |calls|
  {
    forall i, j :: 0 <= i < j < |calls| && r[i].Some? && r[j].Some? && calls[i].size > 0 && calls[j].size > 0 ==>
      r[i].value.offset + m.pageSize <= r[j].value.offset
  }

  ghost predicate Final(m: MemInfo, next: nat, calls: seq<Call>, r: seq<Option<GAddr>>)
    requires |r| == |calls|
  {
    && (forall i, j :: 0 <= i < j < |calls| && r[i].None? && calls[i].size <= m.pageSize && calls[j].size > 0 ==>
          r[j].None?)
    && (next >= UpperBound(m) ==> forall i :: 0 <= i < |calls| && calls[i].size > 0 ==> r[i].None?)
  }

  /** Sequential allocation is safe, for any calls on any types. */
  lemma {:induction false} SequentialAllocation(m: MemInfo, a: AllocState, calls: seq<Call>)
    requires PoolOk(m) && AllocOk(m, a)
    requires forall i :: 0 <= i < |calls| ==> calls[i].typeId < |a.chunks|
    requires Unwrapped(m, a, calls)
    ensures InOrder(m, a.next, calls, RunAlloc(m, a, calls).1)
    decreases |calls|
  {
    hide Allocate, AllocOk, InOrder, UpperBound;
    if calls == [] {
      NoCalls(m, a.next);
    } else {
      AllocateMeaning(m, a, calls[0].typeId, calls[0].size);
      var (a1, g) := Allocate(m, a, calls[0].typeId, calls[0].size);
      SequentialAllocation(m, a1, calls[1..]);
      CounterAligned(m, a);
      OneCallMore(m, a.next, a1.next, calls, g, RunAlloc(m, a1, calls[1..]).1);
      assert RunAlloc(m, a, calls).1 == [g] + RunAlloc(m, a1, calls[1..]).1;
    }
  }

  /** The pool serves exactly as many calls as it has pages: of calls for one byte up
      to a page, made from the start, call i gets page i if there is one. */
  lemma {:induction false} PoolServesExactly(m: MemInfo, a: AllocState, calls: seq<Call>, done: nat, i: nat)
    requires PoolOk(m) && AllocOk(m, a) && a.next == m.addr + done * m.pageSize
    requires forall k :: 0 <= k < |calls| ==>
      calls[k].typeId < |a.chunks| && 0 < calls[k].size <= m.pageSize
    requires Unwrapped(m, a, calls) && i < |calls|
    ensures RunAlloc(m, a, calls).1[i]
         == if done + i < m.pageCount then Some(GAddr(calls[i].typeId, m.addr + (done + i) * m.pageSize)) else None
    decreases |calls|
  {
    hide Allocate, AllocOk, UpperBound, PoolOk;
    AllocateMeaning(m, a, calls[0].typeId, calls[0].size);
    if i == 0 {
      PagesLeft(m, done);
    } else {
      assert m.addr + done * m.pageSize + m.pageSize == m.addr + (done + 1) * m.pageSize;
      PoolServesExactly(m, Allocate(m, a, calls[0].typeId, calls[0].size).0, calls[1..], done + 1, i - 1);
    }
  }

  lemma PagesLeft(m: MemInfo, done: nat)
    requires m.pageSize > 0
    ensures m.addr + done * m.pageSize < UpperBound(m) <==> done < m.pageCount
  {
    if done < m.pageCount {
      MulMonotone(m.pageSize, done + 1, m.pageCount);
    } else {
      MulMonotone(m.pageSize, m.pageCount, done);
    }
  }

  lemma NoCalls(m: MemInfo, next: nat)
    requires m.pageSize > 0
    ensures InOrder(m, next, [], [])
  {
  }

  lemma CounterAligned(m: MemInfo, a: AllocState)
    requires AllocOk(m, a)
    ensures a.next % m.pageSize == 0
  {
  }

  /** What the first call leaves to the rest. */
  ghost predicate FirstCall(m: MemInfo, next: nat, next': nat, x: Call, g: Option<GAddr>)
    requires m.pageSize > 0
  {
    && next <= next' && next % m.pageSize == 0
    && (x.size > 0 ==>
          && next' == next + (if x.size <= m.pageSize then m.pageSize else 0)
          && g == if x.size <= m.pageSize && next < UpperBound(m) then Some(GAddr(x.typeId, next)) else None)
    && (g.None? && x.size <= m.pageSize ==> next >= UpperBound(m))
    && (next < UpperBound(m) ==> next + m.pageSize <= UpperBound(m))
  }

  lemma OneCallMore(m: MemInfo, next: nat, next': nat, calls: seq<Call>, g: Option<GAddr>, gs: seq<Option<GAddr>>)
    requires m.pageSize > 0 && calls != [] && |gs| == |calls| - 1 && InOrder(m, next', calls[1..], gs)
    requires FirstCall(m, next, next', calls[0], g)
    ensures InOrder(m, next, calls, [g] + gs)
  {
    hide UpperBound;
    assert calls == [calls[0]] + calls[1..];
    PlacedMore(m, next, next', calls[0], calls[1..], g, gs);
    SpreadMore(m, next, next', calls[0], calls[1..], g, gs);
    FinalMore(m, next, next', calls[0], calls[1..], g, gs);
  }

  lemma PlacedMore(m: MemInfo, next: nat, next': nat, x: Call, rest: seq<Call>, g: Option<GAddr>,
                   gs: seq<Option<GAddr>>)
    requires m.pageSize > 0 && |gs| == |rest| && Placed(m, next', rest, gs) && FirstCall(m, next, next', x, g)
    ensures Placed(m, next, [x] + rest, [g] + gs)
  {
    hide UpperBound;
  }

  lemma SpreadMore(m: MemInfo, next: nat, next': nat, x: Call, rest: seq<Call>, g: Option<GAddr>,
                   gs: seq<Option<GAddr>>)
    requires m.pageSize > 0 && |gs| == |rest| && Placed(m, next', rest, gs) && FirstCall(m, next, next', x, g)
    requires Spread(m, rest, gs)
    ensures Spread(m, [x] + rest, [g] + gs)
  {
    hide UpperBound;
  }

  lemma FinalMore(m: MemInfo, next: nat, next': nat, x: Call, rest: seq<Call>, g: Option<GAddr>, gs: seq<Option<GAddr>>)
    requires m.pageSize > 0 && |gs| == |rest| && Final(m, next', rest, gs) && FirstCall(m, next, next', x, g)
    ensures Final(m, next, [x] + rest, [g] + gs)
  {
    hide UpperBound;
  }
}
