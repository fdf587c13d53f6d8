/** Interleaved allocation at the end of the pool: a thread that got a page of the
    pool bumps whichever chunk is last by then, and that may be one behind the
    pool. Exactly when this cannot happen. */
module AllocThreadsPool {
  import opened Bits
  import opened Addr
  import opened Options
  import opened Alloc
  import opened AllocThreads
  import opened AllocThreadsSafe
  import opened AllocThreadsExact

  /** Every object returned so far ends inside the pool. */
  ghost predicate InPool(m: MemInfo, s: World) {
    forall k :: 0 <= k < |s.returned| ==> s.returned[k].offset + s.returned[k].size <= UpperBound(m)
  }

  ghost predicate SomeAllocatable(m: MemInfo, types: seq<Option<nat>>) {
    exists x :: MayAsk(types, x) && 0 < x.size <= m.pageSize
  }

  /** What a single thread keeps on top: it passes no test, and the chunk it is about
      to bump, and the chunks its objects came from, are pages of the pool. */
  ghost predicate SoloOk(m: MemInfo, s: World) {
    && Inv(m, s) && |s.threads| <= 1 && NonePassed(s)
    && (forall i :: 0 <= i < |s.threads| && s.threads[i].Bumping? ==>
          && HasTail(s, s.threads[i].call.typeId)
          && Last(s.lists[s.threads[i].call.typeId]) + m.pageSize <= UpperBound(m))
    && (forall k :: 0 <= k < |s.returned| ==> s.returned[k].chunk + m.pageSize <= UpperBound(m))
  }

  lemma SoloStep(m: MemInfo, s: World, i: nat, x: Call)
    requires SoloOk(m, s) && Fits(m, s) && i < |s.threads| && Asks(s, x)
    ensures SoloOk(m, Act(m, s, i, x))
  {
    hide Inv, NonePassed, Fits;
    StepKeepsInv(m, s, i, x);
    NonePassedStep(m, s, i, x);
    match s.threads[i]
    case Inserting(u, addr) =>
      PagesAligned(m, s, i);
    case Bumping(_, _) => BumpAdvances(m, s, i, x);
    case Passing(_) => NotPassing(s, i);
    case Idle =>
    case Testing(_, _) => TestOutcome(m, s, i, x);
    case Fetching(_) =>
  }

  lemma NotPassing(s: World, i: nat)
    requires WellFormed(s) && NonePassed(s) && i < |s.threads|
    ensures !s.threads[i].Passing?
  {
  }

  /** A chunk that starts in the pool ends in it. */
  lemma PagesAligned(m: MemInfo, s: World, i: nat)
    requires Inv(m, s) && i < |s.threads| && s.threads[i].Inserting?
    ensures s.threads[i].addr < UpperBound(m) ==> s.threads[i].addr + m.pageSize <= UpperBound(m)
  {
    assert ThreadOk(m, s, i);
    UpperBoundAligned(m);
    if s.threads[i].addr < UpperBound(m) {
      WholePageBelow(m.pageSize, s.threads[i].addr, UpperBound(m));
    }
  }

  lemma {:induction false} SoloRun(m: MemInfo, s: World, sched: seq<Move>)
    requires SoloOk(m, s) && Feasible(m, s, sched) && Playable(s, sched)
    ensures SoloOk(m, Play(m, s, sched))
    decreases |sched|
  {
    hide Inv, NonePassed, Fits, Act;
    if sched != [] {
      SoloStep(m, s, sched[0].thread, sched[0].call);
      SoloRun(m, Act(m, s, sched[0].thread, sched[0].call), sched[1..]);
    }
  }

  lemma SoloInPool(m: MemInfo, s: World)
    requires SoloOk(m, s)
    ensures InPool(m, s)
  {
    forall k | 0 <= k < |s.returned|
      ensures s.returned[k].offset + s.returned[k].size <= UpperBound(m)
    {
      var o := s.returned[k];
      assert ReturnedOk(s, o) && ChunkOk(m, s, o.chunk);
      BumpsOfChunk(m, s, o.chunk);
      var unit := Unit(m, s, o.typeId);
      TimesMonotone(unit, unit, Bumps(s.chunks[o.chunk]), 1);
      assert Times(unit, 1) == Times(unit, 0) + unit;
    }
  }

  // The race for the last page

  /** Nobody is inside a call and k pages are gone. */
  ghost predicate Quiet(m: MemInfo, s: World, k: nat) {
    && Inv(m, s) && Fits(m, s) && s.next == m.addr + Times(m.pageSize, k)
    && forall i :: 0 <= i < |s.threads| ==> s.threads[i].Idle?
  }

  /** One whole call of thread 0. */
  lemma FullCall(m: MemInfo, s0: World, sched: seq<Move>, s: World, k: nat, x: Call)
    returns (more: seq<Move>, s': World)
    requires Quiet(m, s, k) && Asks(s, x) && x.size <= m.pageSize && |s.threads| > 0
    requires m.pageSize > 0 && WellFormed(s0) && Leads(m, s0, sched, s)
    requires k < m.pageCount && UpperBound(m) + 2 * m.pageSize <= TWO_56
    ensures Leads(m, s0, more, s') && Quiet(m, s', k + 1) && s'.types == s.types && |s'.threads| == |s.threads|
  {
    hide Inv, Leads, Fits, Act;
    PagesGone(m, k);
    more := OpensChunk(m, s0, sched, s, 0, x);
    var s1 := AfterOpening(m, s, 0, x);
    BumpAdvances(m, s1, 0, x);
    BumpKeepsInv(m, s1, 0, x);
    CrossingFits(m, s1, 0, x);
    s' := Act(m, s1, 0, x);
    more := OneMore(m, s0, more, s1, 0, x);
  }

  lemma {:induction false} FullCalls(m: MemInfo, s: World, k: nat, x: Call) returns (sched: seq<Move>, s': World)
    requires Quiet(m, s, 0) && Asks(s, x) && x.size <= m.pageSize && |s.threads| > 0
    requires k <= m.pageCount && UpperBound(m) + 2 * m.pageSize <= TWO_56
    ensures m.pageSize > 0 && WellFormed(s) && Leads(m, s, sched, s') && Quiet(m, s', k)
    ensures s'.types == s.types && |s'.threads| == |s.threads|
  {
    hide Inv, Leads, Fits;
    if k == 0 {
      sched, s' := [], s;
      StaysPut(m, s);
    } else {
      var before, s1 := FullCalls(m, s, k - 1, x);
      sched, s' := FullCall(m, s, before, s1, k - 1, x);
    }
  }

  /** Thread 0 fetches the last page and thread 1 the address behind it; thread 1
      inserts its useless chunk before thread 0 bumps. */
  lemma LastPageRace(m: MemInfo, s: World, x: Call) returns (sched: seq<Move>)
    requires Quiet(m, s, 0) && Asks(s, x) && x.size <= m.pageSize && |s.threads| > 1 && m.pageCount > 0
    requires UpperBound(m) + 2 * m.pageSize <= TWO_56
    ensures m.pageSize > 0 && WellFormed(s) && Feasible(m, s, sched) && Playable(s, sched)
    ensures !InPool(m, Play(m, s, sched))
  {
    hide Inv, Fits, InPool, Feasible, Play;
    PagesGone(m, m.pageCount - 1);
    PagesGone(m, m.pageCount);
    var more, s1 := FullCalls(m, s, m.pageCount - 1, x);
    more := OpensChunk(m, s, more, s1, 0, x);
    var s2 := AfterOpening(m, s1, 0, x);
    more := OpensChunk(m, s, more, s2, 1, x);
    var s3 := AfterOpening(m, s2, 1, x);
    CrossingFits(m, s3, 0, x);
    OutOfPoolBump(m, s3, 0, x);
    sched := OneMore(m, s, more, s3, 0, x);
  }

  lemma OutOfPoolBump(m: MemInfo, s: World, i: nat, x: Call)
    requires Inv(m, s) && Fits(m, s) && Asks(s, x) && Bumper(s, i) && s.threads[i].call == x
    requires HasTail(s, x.typeId) && Last(s.lists[x.typeId]) >= UpperBound(m) && x.size > 0
    ensures !InPool(m, Act(m, s, i, x))
  {
    hide Inv, Act, Fits;
    BumpAdvances(m, s, i, x);
    var s' := Act(m, s, i, x);
    var k := |s'.returned| - 1;
    assert s'.returned[k].offset + s'.returned[k].size > UpperBound(m);
  }

  ghost predicate EndsInPool(m: MemInfo, types: seq<Option<nat>>, threadCount: nat, sched: seq<Move>)
    requires m.pageSize > 0 && Feasible(m, Start(m, types, threadCount), sched)
  {
    FeasiblePlayable(m, Start(m, types, threadCount), sched);
    InPool(m, Play(m, Start(m, types, threadCount), sched))
  }

  /** No interleaving ever hands out an object behind the pool, if and only if
      there is at most one thread (or nothing can be allocated at all). */
  lemma InPoolExactly(m: MemInfo, types: seq<Option<nat>>, threadCount: nat)
    requires PoolOk(m) && UpperBound(m) + 2 * m.pageSize <= TWO_56
    ensures (forall sched :: Feasible(m, Start(m, types, threadCount), sched) ==>
               EndsInPool(m, types, threadCount, sched))
       <==> threadCount <= 1 || m.pageCount == 0 || !SomeAllocatable(m, types)
  {
    hide Inv, Feasible, Play, InPool, Fits, SomeAllocatable;
    var s := Start(m, types, threadCount);
    StartInv(m, types, threadCount);
    if threadCount <= 1 || m.pageCount == 0 || !SomeAllocatable(m, types) {
      forall sched | Feasible(m, s, sched)
        ensures EndsInPool(m, types, threadCount, sched)
      {
        FeasiblePlayable(m, s, sched);
        SafeEnd(m, types, threadCount, sched);
      }
    } else {
      var x := Allocatable(m, types);
      StartQuiet(m, s);
      var sched := LastPageRace(m, s, x);
    }
  }

  lemma Allocatable(m: MemInfo, types: seq<Option<nat>>) returns (x: Call)
    requires SomeAllocatable(m, types)
    ensures MayAsk(types, x) && 0 < x.size <= m.pageSize
  {
    x :| MayAsk(types, x) && 0 < x.size <= m.pageSize;
  }

  lemma StartQuiet(m: MemInfo, s: World)
    requires s == Start(m, s.types, |s.threads|) && Inv(m, s) && UpperBound(m) + 2 * m.pageSize <= TWO_56
    ensures Quiet(m, s, 0)
  {
    MulMonotone(m.pageSize, 0, m.pageCount);
  }

  lemma SafeEnd(m: MemInfo, types: seq<Option<nat>>, threadCount: nat, sched: seq<Move>)
    requires Inv(m, Start(m, types, threadCount))
    requires Feasible(m, Start(m, types, threadCount), sched) && Playable(Start(m, types, threadCount), sched)
    requires threadCount <= 1 || m.pageCount == 0 || !SomeAllocatable(m, types)
    ensures InPool(m, Play(m, Start(m, types, threadCount), sched))
  {
    hide Inv, Feasible, Play, Fits, SomeAllocatable;
    var s := Start(m, types, threadCount);
    if threadCount <= 1 {
      SoloRun(m, s, sched);
      SoloInPool(m, Play(m, s, sched));
    } else if m.pageCount == 0 {
      NonePassedRun(m, s, sched);
      EmptyPool(m, Play(m, s, sched));
    } else {
      RunKeepsInv(m, s, sched);
      NothingReturned(m, Play(m, s, sched));
    }
  }

  lemma NothingReturned(m: MemInfo, s: World)
    requires Inv(m, s) && !SomeAllocatable(m, s.types)
    ensures s.returned == []
  {
    if s.returned != [] {
      ReturnedAllocatable(m, s);
    }
  }

  lemma ReturnedAllocatable(m: MemInfo, s: World)
    requires Inv(m, s) && s.returned != []
    ensures SomeAllocatable(m, s.types)
  {
    var o := s.returned[0];
    assert ReturnedOk(s, o) && ChunkOk(m, s, o.chunk);
    assert MayAsk(s.types, Call(o.typeId, Unit(m, s, o.typeId)));
  }

  /** An object takes up space between the start and the bump pointer of its chunk. */
  lemma EmptyPool(m: MemInfo, s: World)
    requires Inv(m, s) && m.pageCount == 0 && NonePassed(s)
    ensures s.returned == []
  {
    if s.returned != [] {
      var c := s.returned[0].chunk;
      assert ReturnedOk(s, s.returned[0]) && ChunkOk(m, s, c);
      NothingBumped(m, s, c);
    }
  }
}
