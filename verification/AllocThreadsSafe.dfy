/** Interleaved allocation: the conditions under which no run returns an object that
    crosses a page or overlaps another. */
module AllocThreadsSafe {
  import opened Bits
  import opened Addr
  import opened Alloc
  import opened AllocThreads

  /** The object lies in the page of the chunk it was carved from. */
  ghost predicate InChunk(m: MemInfo, o: Obj)
    requires m.pageSize > 0
  {
    o.chunk % m.pageSize == 0 && o.chunk <= o.offset && o.offset + o.size <= o.chunk + m.pageSize
  }

  predicate Apart(o: Obj, q: Obj) {
    o.offset + o.size <= q.offset || q.offset + q.size <= o.offset
  }

  /** Every object returned so far is inside one page, and no two overlap. */
  ghost predicate Safe(m: MemInfo, s: World)
    requires m.pageSize > 0
  {
    && (forall k :: 0 <= k < |s.returned| ==> InChunk(m, s.returned[k]))
    && (forall k, l :: 0 <= k < l < |s.returned| ==> Apart(s.returned[k], s.returned[l]))
  }

  /** No chunk was bumped behind its page. */
  ghost predicate ChunksFit(m: MemInfo, s: World) {
    forall c :: c in s.chunks ==> s.chunks[c].nextAddr <= c + m.pageSize
  }

  lemma FittingIsSafe(m: MemInfo, s: World)
    requires Inv(m, s) && ChunksFit(m, s)
    ensures Safe(m, s)
  {
    hide Times, ClaimsOk, ThreadsOk, PoolOk;
    forall k | 0 <= k < |s.returned|
      ensures InChunk(m, s.returned[k])
    {
      assert ReturnedOk(s, s.returned[k]) && ChunkOk(m, s, s.returned[k].chunk);
    }
    forall k, l | 0 <= k < l < |s.returned|
      ensures Apart(s.returned[k], s.returned[l])
    {
      var c, d := s.returned[k].chunk, s.returned[l].chunk;
      assert InChunk(m, s.returned[k]) && InChunk(m, s.returned[l]);
      if c < d {
        WholePageBelow(m.pageSize, c, d);
      } else if d < c {
        WholePageBelow(m.pageSize, d, c);
      }
    }
  }

  lemma {:induction false} SubsetOfRange(xs: set<nat>, n: nat)
    requires forall x :: x in xs ==> x < n
    ensures |xs| <= n
  {
    if n > 0 {
      var ys := xs - {n - 1};
      SubsetOfRange(ys, n - 1);
      assert xs <= ys + {n - 1};
      assert |xs| <= |ys| + 1 by {
        if n - 1 in xs { assert xs == ys + {n - 1}; } else { assert xs == ys; }
      }
    } else {
      assert xs == {};
    }
  }

  /** Threads with a chunk of their own bump a chunk at most once each, and no more
      often than the pool has pages. */
  lemma BumpsOfChunk(m: MemInfo, s: World, c: nat)
    requires Inv(m, s) && c in s.chunks
    ensures |s.chunks[c].bumpedBy| <= Min(|s.threads|, m.pageCount)
  {
    assert ChunkOk(m, s, c);
    SubsetOfRange(s.chunks[c].bumpedBy, |s.threads|);
    ClaimsBound(m, s);
  }

  /** Objects of each type that fits into a page, at their largest, fit in as often as
      there are threads, or pages in the pool. */
  ghost predicate Spacious(m: MemInfo, s: World) {
    forall t :: 0 <= t < |s.types| && Unit(m, s, t) <= m.pageSize ==>
      Times(Unit(m, s, t), Min(|s.threads|, m.pageCount)) <= m.pageSize
  }

  lemma OwnBumpsFit(m: MemInfo, s: World, c: nat)
    requires Inv(m, s) && Spacious(m, s) && c in s.chunks && s.chunks[c].passes == 0
    ensures s.chunks[c].nextAddr <= c + m.pageSize
  {
    assert ChunkOk(m, s, c);
    BumpsOfChunk(m, s, c);
    var unit := Unit(m, s, s.chunks[c].typeId);
    TimesMonotone(unit, unit, Bumps(s.chunks[c]), Min(|s.threads|, m.pageCount));
  }

  // When nobody passes the test

  /** The pool starts behind page one, or there is nobody to race with, or nothing to
      race for, or objects are whole pages. */
  ghost predicate NoRace(m: MemInfo, s: World) {
    || m.addr != m.pageSize || |s.threads| <= 1 || m.pageCount == 0
    || (forall x :: Asks(s, x) ==> x.size >= m.pageSize)
  }

  ghost predicate NonePassed(s: World)
    requires WellFormed(s)
  {
    && (forall c :: c in s.chunks ==> s.chunks[c].passes == 0)
    && (forall i :: 0 <= i < |s.threads| ==> !s.threads[i].Passing?)
    && (forall i :: 0 <= i < |s.threads| <= 1 && s.threads[i].Testing? ==>
          s.threads[i].first == s.chunks[Last(s.lists[s.threads[i].call.typeId])].nextAddr)
  }

  lemma NonePassedStep(m: MemInfo, s: World, i: nat, x: Call)
    requires Inv(m, s) && Fits(m, s) && NoRace(m, s) && NonePassed(s) && i < |s.threads| && Asks(s, x)
    ensures NonePassed(Act(m, s, i, x))
  {
    hide Inv, Fits;
    match s.threads[i]
    case Testing(y, _) =>
      TestOutcome(m, s, i, x);
      if m.pageCount == 0 {
        NothingBumped(m, s, Last(s.lists[y.typeId]));
      }
    case Idle =>
    case Fetching(_) =>
    case Inserting(_, _) =>
    case Passing(_) =>
    case Bumping(_, _) =>
  }

  lemma NothingBumped(m: MemInfo, s: World, c: nat)
    requires Inv(m, s) && m.pageCount == 0 && c in s.chunks && s.chunks[c].passes == 0
    ensures s.chunks[c].nextAddr == c
  {
    BumpsOfChunk(m, s, c);
    assert ChunkOk(m, s, c);
  }

  lemma NonePassedIsSafe(m: MemInfo, s: World)
    requires Inv(m, s) && NonePassed(s) && Spacious(m, s)
    ensures Safe(m, s)
  {
    hide Inv, Spacious, Bumps, Safe;
    forall c | c in s.chunks
      ensures s.chunks[c].nextAddr <= c + m.pageSize
    {
      OwnBumpsFit(m, s, c);
    }
    FittingIsSafe(m, s);
  }

  lemma {:induction false} NonePassedRun(m: MemInfo, s: World, sched: seq<Move>)
    requires Inv(m, s) && NoRace(m, s) && NonePassed(s) && Feasible(m, s, sched) && Playable(s, sched)
    ensures Inv(m, Play(m, s, sched)) && NonePassed(Play(m, s, sched))
    decreases |sched|
  {
    hide Inv, Act, Fits, NonePassed;
    if sched != [] {
      StepKeepsInv(m, s, sched[0].thread, sched[0].call);
      NonePassedStep(m, s, sched[0].thread, sched[0].call);
      NonePassedRun(m, Act(m, s, sched[0].thread, sched[0].call), sched[1..]);
    }
  }

  // Two threads

  /** What thread i is to bump the last chunk of type u by. */
  function Due(s: World, i: nat, u: nat): nat {
    if Bumper(s, i) && s.threads[i].call.typeId == u then s.threads[i].call.size else 0
  }

  predicate AtPageOne(m: MemInfo, s: World, u: nat) {
    HasTail(s, u) && u < |s.types| && Last(s.lists[u]) == m.pageSize
  }

  /** The chunk at page one has space for all that are to bump it now. */
  ghost predicate DueFit(m: MemInfo, s: World) {
    && (forall u: nat :: AtPageOne(m, s, u) ==>
          s.chunks[m.pageSize].nextAddr + Due(s, 0, u) + Due(s, 1, u) <= 2 * m.pageSize)
    && (m.pageSize in s.chunks ==> s.chunks[m.pageSize].nextAddr <= 2 * m.pageSize)
  }

  /** While one thread is between its loads and the pointer has moved, the other can
      neither bump nor pass. */
  ghost predicate Outrun(m: MemInfo, s: World, i: nat, j: nat)
    requires i < |s.threads| && j < |s.threads|
  {
    s.threads[i].Testing? && AtPageOne(m, s, s.threads[i].call.typeId) &&
    s.threads[i].first < s.chunks[m.pageSize].nextAddr ==>
      && Due(s, j, s.threads[i].call.typeId) == 0
      && (s.threads[j].Testing? && s.threads[j].call.typeId == s.threads[i].call.typeId ==>
            s.threads[j].first == s.chunks[m.pageSize].nextAddr)
  }

  /** All sizes that can be asked for and fit divide the page. */
  ghost predicate Tiling(m: MemInfo, s: World)
    requires m.pageSize > 0
  {
    forall x :: Asks(s, x) && x.size <= m.pageSize ==> m.pageSize % x.size == 0
  }

  ghost predicate PairOk(m: MemInfo, s: World) {
    && Inv(m, s) && |s.threads| == 2 && Spacious(m, s) && Tiling(m, s)
    && DueFit(m, s) && Outrun(m, s, 0, 1) && Outrun(m, s, 1, 0)
  }

  lemma PairIsSafe(m: MemInfo, s: World)
    requires PairOk(m, s)
    ensures Safe(m, s)
  {
    forall c | c in s.chunks
      ensures s.chunks[c].nextAddr <= c + m.pageSize
    {
      assert ChunkOk(m, s, c);
      if c != m.pageSize {
        OwnBumpsFit(m, s, c);
      }
    }
    FittingIsSafe(m, s);
  }

  lemma StrideBelow(p: nat, size: nat, n: nat)
    requires 0 < size <= p && p % size == 0 && Times(size, n) < p
    ensures Times(size, n + 1) <= p
  {
    TimesIsMul(size, n);
    assert p == size * (p / size);
    assert size * (p / size - n) == p - size * n;
    MulBound(size, p / size - n);
  }

  /** A step that changes no chunk, list or due bump, and tests nothing. */
  lemma PairElsewhere(m: MemInfo, s: World, i: nat, x: Call)
    requires PairOk(m, s) && Fits(m, s) && i < 2 && Asks(s, x)
    requires s.threads[i].Idle? || s.threads[i].Fetching?
    ensures PairOk(m, Act(m, s, i, x))
  {
    hide Inv, Fits, Times, Spacious, Act, Tiling, Outrun;
    StepKeepsInv(m, s, i, x);
    Elsewhere(m, s, i, x);
    var s' := Act(m, s, i, x);
    assert Spacious(m, s') by { SameSpace(m, s, s'); }
    assert Tiling(m, s') by { SameTiling(m, s, s'); }
    assert forall u: nat :: AtPageOne(m, s', u) <==> AtPageOne(m, s, u);
    assert forall j: nat, u: nat :: Due(s', j, u) == Due(s, j, u);
    assert Outrun(m, s', 0, 1) && Outrun(m, s', 1, 0) by {
      SameOutrun(m, s, s', i, 0, 1);
      SameOutrun(m, s, s', i, 1, 0);
    }
  }

  /** Thread i alone moves, and is neither about to bump nor behind the pointer. */
  ghost predicate Bystander(m: MemInfo, s: World, s': World, i: nat)
    requires i < |s.threads|
  {
    && s'.types == s.types && s'.lists == s.lists && s'.chunks == s.chunks && |s'.threads| == |s.threads|
    && (forall j :: 0 <= j < |s.threads| && j != i ==> s'.threads[j] == s.threads[j])
    && !Bumper(s, i) && !Bumper(s', i)
    && (s'.threads[i].Testing? && AtPageOne(m, s, s'.threads[i].call.typeId) ==>
          s'.threads[i].first == s.chunks[m.pageSize].nextAddr)
  }

  lemma Elsewhere(m: MemInfo, s: World, i: nat, x: Call)
    requires m.pageSize > 0 && WellFormed(s) && i < |s.threads| && Asks(s, x)
    requires s.threads[i].Idle? || s.threads[i].Fetching?
    ensures Bystander(m, s, Act(m, s, i, x), i)
  {
  }

  lemma SameOutrun(m: MemInfo, s: World, s': World, i: nat, j: nat, k: nat)
    requires i < |s.threads| == 2 && j < 2 && k < 2 && j != k && Bystander(m, s, s', i) && Outrun(m, s, j, k)
    ensures Outrun(m, s', j, k)
  {
  }

  lemma SameTiling(m: MemInfo, s: World, s': World)
    requires m.pageSize > 0 && Tiling(m, s) && s'.types == s.types
    ensures Tiling(m, s')
  {
    forall x | Asks(s', x) && x.size <= m.pageSize
      ensures m.pageSize % x.size == 0
    {
      assert Asks(s, x);
    }
  }

  lemma SameSpace(m: MemInfo, s: World, s': World)
    requires Spacious(m, s) && s'.types == s.types && |s'.threads| == |s.threads|
    ensures Spacious(m, s')
  {
    forall t | 0 <= t < |s'.types|
      ensures Unit(m, s', t) == Unit(m, s, t)
    {
    }
  }

  /** The test: a thread passes only when no other is due and a place is left. */
  lemma PairTest(m: MemInfo, s: World, i: nat, x: Call)
    requires PairOk(m, s) && Fits(m, s) && i < 2 && Asks(s, x) && s.threads[i].Testing?
    ensures PairOk(m, Act(m, s, i, x))
  {
    hide Inv, Fits, Times, Spacious, Act;
    StepKeepsInv(m, s, i, x);
    TestOutcome(m, s, i, x);
    var s' := Act(m, s, i, x);
    assert Spacious(m, s') by { SameSpace(m, s, s'); }
    assert forall u: nat :: AtPageOne(m, s', u) <==> AtPageOne(m, s, u);
    var v := s.threads[i].call.typeId;
    assert forall j: nat, u: nat :: !(j == i && u == v) ==> Due(s', j, u) == Due(s, j, u);
    if s'.threads[i].Passing? {
      PlaceLeft(m, s, i, x);
    }
  }

  lemma PlaceLeft(m: MemInfo, s: World, i: nat, x: Call)
    requires PairOk(m, s) && Fits(m, s) && i < 2 && Asks(s, x) && s.threads[i].Testing?
    requires Act(m, s, i, x).threads[i].Passing?
    ensures var y := s.threads[i].call;
      && AtPageOne(m, s, y.typeId) && Due(s, 0, y.typeId) == 0 && Due(s, 1, y.typeId) == 0
      && s.chunks[m.pageSize].nextAddr + y.size <= 2 * m.pageSize
  {
    hide Fits, Times, Spacious, Act;
    var p, y := m.pageSize, s.threads[i].call;
    TestOutcome(m, s, i, x);
    TailBound(m, s, y.typeId);
    var next := s.chunks[p].nextAddr;
    if next == 2 * p {
      DivModUnique(next, p, 2, 0);
    }
    if s.types[y.typeId].Some? {
      StrideBelow(p, y.size, Bumps(s.chunks[p]));
      assert Times(y.size, Bumps(s.chunks[p]) + 1) == Times(y.size, Bumps(s.chunks[p])) + y.size by {
        OneMoreTime(y.size, Bumps(s.chunks[p]));
      }
    } else {
      SmallPage(m, s, y.typeId);
    }
  }

  lemma OneMoreTime(d: nat, n: nat)
    ensures Times(d, n + 1) == Times(d, n) + d
  {
  }

  /** All sizes divide the page only if it has one byte or two. */
  lemma SmallPage(m: MemInfo, s: World, t: nat)
    requires m.pageSize > 0 && Tiling(m, s) && t < |s.types| && s.types[t].None?
    ensures m.pageSize <= 2
  {
    var p := m.pageSize;
    if p > 2 {
      assert Asks(s, Call(t, p - 1));
      DivModUnique(p, p - 1, 1, 1);
    }
  }

  /** A bump takes one of the places that are due. */
  lemma PairBump(m: MemInfo, s: World, i: nat, x: Call)
    requires PairOk(m, s) && Fits(m, s) && i < 2 && Asks(s, x) && Bumper(s, i)
    ensures PairOk(m, Act(m, s, i, x))
  {
    hide Inv, Fits, Times, Spacious, Act;
    StepKeepsInv(m, s, i, x);
    BumpAdvances(m, s, i, x);
    var s' := Act(m, s, i, x);
    assert Spacious(m, s') by { SameSpace(m, s, s'); }
    assert forall u: nat :: AtPageOne(m, s', u) <==> AtPageOne(m, s, u);
    var v := s.threads[i].call.typeId;
    assert forall j: nat, u: nat :: !(j == i && u == v) ==> Due(s', j, u) == Due(s, j, u);
    assert DueFit(m, s') by { BumpKeepsDue(m, s, i, x); }
  }

  lemma BumpKeepsDue(m: MemInfo, s: World, i: nat, x: Call)
    requires Inv(m, s) && |s.threads| == 2 && DueFit(m, s) && Fits(m, s) && i < 2 && Asks(s, x) && Bumper(s, i)
    ensures DueFit(m, Act(m, s, i, x))
  {
    hide Inv, Fits, Act;
    BumpAdvances(m, s, i, x);
    var s', v := Act(m, s, i, x), s.threads[i].call.typeId;
    assert forall j: nat, u: nat :: !(j == i && u == v) ==> Due(s', j, u) == Due(s, j, u);
    assert Due(s, i, v) == s.threads[i].call.size && Due(s', i, v) == 0;
    forall u: nat | AtPageOne(m, s', u)
      ensures s'.chunks[m.pageSize].nextAddr + Due(s', 0, u) + Due(s', 1, u) <= 2 * m.pageSize
    {
      TailBound(m, s, u);
    }
  }

  /** An insertion makes a new last chunk. If it is the one at page one, those that
      are due each have used up a page. */
  lemma PairInsert(m: MemInfo, s: World, i: nat, x: Call)
    requires PairOk(m, s) && Fits(m, s) && i < 2 && Asks(s, x) && s.threads[i].Inserting?
    ensures PairOk(m, Act(m, s, i, x))
  {
    hide Inv, Fits, Times, Spacious;
    StepKeepsInv(m, s, i, x);
    var s', v := Act(m, s, i, x), s.threads[i].call.typeId;
    if Locked(s, v) {
      return;
    }
    assert Spacious(m, s') by { SameSpace(m, s, s'); }
    assert DueFit(m, s') by { InsertKeepsDue(m, s, i, x); }
    PendingFits(m, s, i);
  }

  lemma InsertKeepsDue(m: MemInfo, s: World, i: nat, x: Call)
    requires PairOk(m, s) && i < 2 && Asks(s, x) && s.threads[i].Inserting? && Inv(m, Act(m, s, i, x))
    requires !Locked(s, s.threads[i].call.typeId) && Spacious(m, Act(m, s, i, x))
    ensures DueFit(m, Act(m, s, i, x))
  {
    hide Inv, Times, Spacious;
    var s', v := Act(m, s, i, x), s.threads[i].call.typeId;
    PendingFits(m, s, i);
    assert Last(s'.lists[v]) == s.threads[i].addr;
    if s.threads[i].addr == m.pageSize {
      FirstDueFit(m, s', v);
    }
    forall u: nat | AtPageOne(m, s', u)
      ensures s'.chunks[m.pageSize].nextAddr + Due(s', 0, u) + Due(s', 1, u) <= 2 * m.pageSize
    {
      if u != v {
        assert AtPageOne(m, s, u);
        assert forall j: nat :: Due(s', j, u) == Due(s, j, u);
      }
    }
  }

  lemma PendingFits(m: MemInfo, s: World, i: nat)
    requires Inv(m, s) && i < |s.threads| && s.threads[i].Inserting?
    ensures Unit(m, s, s.threads[i].call.typeId) <= m.pageSize && s.threads[i].addr !in s.chunks
  {
    assert ThreadOk(m, s, i);
  }

  lemma FirstDueFit(m: MemInfo, s: World, v: nat)
    requires Inv(m, s) && |s.threads| == 2 && Spacious(m, s) && v < |s.types|
    requires forall j :: 0 <= j < 2 ==> !(s.threads[j].Passing? && s.threads[j].call.typeId == v)
    requires Unit(m, s, v) <= m.pageSize
    ensures Due(s, 0, v) + Due(s, 1, v) <= m.pageSize
  {
    ClaimsBound(m, s);
    assert s.threads == [s.threads[0], s.threads[1]];
    assert ThreadOk(m, s, 0) && ThreadOk(m, s, 1);
    var unit := Unit(m, s, v);
    var n := (if Due(s, 0, v) > 0 then 1 else 0) + (if Due(s, 1, v) > 0 then 1 else 0);
    assert Holding(m, s.threads) >= n;
    TimesMonotone(unit, unit, n, Min(2, m.pageCount));
    assert Times(unit, 2) == Times(unit, 1) + unit && Times(unit, 1) == Times(unit, 0) + unit;
  }

  lemma {:induction false} PairRun(m: MemInfo, s: World, sched: seq<Move>)
    requires PairOk(m, s) && Feasible(m, s, sched) && Playable(s, sched)
    ensures PairOk(m, Play(m, s, sched))
    decreases |sched|
  {
    hide Inv, Act, Fits, DueFit, Outrun, Spacious, Tiling;
    if sched != [] {
      var i, x := sched[0].thread, sched[0].call;
      match s.threads[i] {
        case Idle => PairElsewhere(m, s, i, x);
        case Fetching(_) => PairElsewhere(m, s, i, x);
        case Testing(_, _) => PairTest(m, s, i, x);
        case Inserting(_, _) => PairInsert(m, s, i, x);
        case Passing(_) => PairBump(m, s, i, x);
        case Bumping(_, _) => PairBump(m, s, i, x);
      }
      PairRun(m, Act(m, s, i, x), sched[1..]);
    }
  }
}
