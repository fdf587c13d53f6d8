/** Interleaved allocation: schedules that go wrong, and with them the exact condition
    under which every run is safe. */
module AllocThreadsExact {
  import opened Bits
  import opened Addr
  import opened Options
  import opened Alloc
  import opened AllocThreads
  import opened AllocThreadsSafe

  // Schedules

  /** The moves can be played and end there. */
  ghost predicate Leads(m: MemInfo, s: World, sched: seq<Move>, s': World)
    requires m.pageSize > 0 && WellFormed(s)
  {
    Feasible(m, s, sched) && Playable(s, sched) && Play(m, s, sched) == s'
  }

  lemma StaysPut(m: MemInfo, s: World)
    requires m.pageSize > 0 && WellFormed(s) && Fits(m, s)
    ensures Leads(m, s, [], s)
  {
  }

  /** One more move. */
  lemma OneMore(m: MemInfo, s: World, sched: seq<Move>, s': World, i: nat, x: Call) returns (more: seq<Move>)
    requires m.pageSize > 0 && WellFormed(s) && WellFormed(s') && Leads(m, s, sched, s')
    requires i < |s'.threads| && Asks(s', x) && Fits(m, Act(m, s', i, x))
    ensures Leads(m, s, more, Act(m, s', i, x))
  {
    more := sched + [Move(i, x)];
    Then(m, s, sched, s', Move(i, x));
  }

  lemma {:induction false} Then(m: MemInfo, s: World, sched: seq<Move>, s': World, last: Move)
    requires m.pageSize > 0 && WellFormed(s) && WellFormed(s') && Leads(m, s, sched, s')
    requires last.thread < |s'.threads| && Asks(s', last.call) && Fits(m, Act(m, s', last.thread, last.call))
    ensures Leads(m, s, sched + [last], Act(m, s', last.thread, last.call))
    decreases |sched|
  {
    hide Act, Fits;
    if sched == [] {
      assert sched + [last] == [last] && [last][1..] == [] && s' == s;
      var s1 := Act(m, s, last.thread, last.call);
      assert Feasible(m, s1, []) && Play(m, s1, []) == s1;
      assert Feasible(m, s, [last]) && Play(m, s, [last]) == s1;
    } else {
      var s1 := Act(m, s, sched[0].thread, sched[0].call);
      assert (sched + [last])[1..] == sched[1..] + [last];
      assert Leads(m, s1, sched[1..], s');
      Then(m, s1, sched[1..], s', last);
    }
  }

  // Opening a chunk

  /** Nobody holds a read lock and the counter has a page to go. */
  predicate MayOpen(m: MemInfo, s: World, i: nat, x: Call)
  {
    && i < |s.threads| && Asks(s, x) && x.size <= m.pageSize && s.threads[i].Idle?
    && (forall j :: 0 <= j < |s.threads| ==> !s.threads[j].Testing? && !s.threads[j].Passing?)
    && s.next + 2 * m.pageSize <= TWO_56
  }

  function AfterOpening(m: MemInfo, s: World, i: nat, x: Call): World
    requires i < |s.threads| && x.typeId < |s.lists|
  {
    s.(next := s.next + m.pageSize, lists := s.lists[x.typeId := s.lists[x.typeId] + [s.next]],
       chunks := s.chunks[s.next := Chunk(x.typeId, s.next, {}, 0)],
       threads := s.threads[i := if s.next >= UpperBound(m) then Idle else Bumping(x, |s.lists[x.typeId]|)])
  }

  /** An idle thread gets a chunk: undisturbed, it finds the last one full. */
  lemma OpensChunk(m: MemInfo, s0: World, sched: seq<Move>, s: World, i: nat, x: Call) returns (more: seq<Move>)
    requires Inv(m, s) && m.pageSize > 0 && WellFormed(s0) && Leads(m, s0, sched, s)
    requires Fits(m, s) && MayOpen(m, s, i, x)
    ensures Inv(m, AfterOpening(m, s, i, x)) && Fits(m, AfterOpening(m, s, i, x))
    ensures Leads(m, s0, more, AfterOpening(m, s, i, x))
  {
    hide Inv, Leads, Feasible, Play;
    var s1 := s.(threads := s.threads[i := Fetching(x)]);
    more := FindsFull(m, s0, sched, s, i, x);
    more := OneMore(m, s0, more, s1, i, x);
    FetchKeepsInv(m, s1, i, x);
    var s2 := Act(m, s1, i, x);
    InsertKeepsInv(m, s2, i, x);
    assert Act(m, s2, i, x) == AfterOpening(m, s, i, x);
    more := OneMore(m, s0, more, s2, i, x);
  }

  lemma FindsFull(m: MemInfo, s0: World, sched: seq<Move>, s: World, i: nat, x: Call) returns (more: seq<Move>)
    requires Inv(m, s) && m.pageSize > 0 && WellFormed(s0) && Leads(m, s0, sched, s)
    requires Fits(m, s) && MayOpen(m, s, i, x)
    ensures var s1 := s.(threads := s.threads[i := Fetching(x)]);
      Inv(m, s1) && Fits(m, s1) && Leads(m, s0, more, s1)
  {
    hide Inv, Leads, Feasible, Play;
    var s1 := Act(m, s, i, x);
    StepKeepsInv(m, s, i, x);
    more := OneMore(m, s0, sched, s, i, x);
    if s.lists[x.typeId] != [] {
      TestOutcome(m, s1, i, x);
      StepKeepsInv(m, s1, i, x);
      more := OneMore(m, s0, more, s1, i, x);
      assert s1.threads[i := Fetching(x)] == s.threads[i := Fetching(x)];
    }
  }

  // n threads race for the last of n chunks

  /** The first n threads have opened a chunk each and are about to bump. */
  ghost predicate Opened(m: MemInfo, s: World, n: nat, x: Call)
    requires Asks(s, x)
  {
    && Inv(m, s) && n <= |s.threads| && s.returned == [] && Fits(m, s)
    && s.next == m.addr + Times(m.pageSize, n)
    && (n > 0 ==>
          && HasTail(s, x.typeId)
          && s.chunks[Last(s.lists[x.typeId])].nextAddr == Last(s.lists[x.typeId]) == s.next - m.pageSize)
    && (forall i :: 0 <= i < n ==> s.threads[i].Bumping? && s.threads[i].call == x)
    && (forall i :: n <= i < |s.threads| ==> s.threads[i].Idle?)
  }

  /** After k pages are gone the chunk counter stands k pages into the pool. */
  lemma PagesGone(m: MemInfo, k: nat)
    requires m.pageSize > 0
    ensures k < m.pageCount ==> m.addr + Times(m.pageSize, k) + m.pageSize <= UpperBound(m)
    ensures k == m.pageCount ==> m.addr + Times(m.pageSize, k) == UpperBound(m)
    ensures Times(m.pageSize, k + 1) == Times(m.pageSize, k) + m.pageSize
  {
    TimesIsMul(m.pageSize, m.pageCount);
    if k < m.pageCount {
      TimesMonotone(m.pageSize, m.pageSize, k + 1, m.pageCount);
    }
  }

  lemma {:induction false} OpenAll(m: MemInfo, s: World, n: nat, x: Call) returns (sched: seq<Move>, s': World)
    requires Asks(s, x) && x.size <= m.pageSize && Opened(m, s, 0, x)
    requires n <= Min(|s.threads|, m.pageCount) && UpperBound(m) + 2 * m.pageSize <= TWO_56
    ensures m.pageSize > 0 && WellFormed(s) && Leads(m, s, sched, s') && s'.types == s.types && Opened(m, s', n, x)
    ensures |s'.threads| == |s.threads|
  {
    hide Inv, Leads, Fits;
    if n == 0 {
      sched, s' := [], s;
      StaysPut(m, s);
    } else {
      var before, s1 := OpenAll(m, s, n - 1, x);
      PagesGone(m, n - 1);
      sched := OpensChunk(m, s, before, s1, n - 1, x);
      s' := AfterOpening(m, s1, n - 1, x);
    }
  }

  /** A bump that crosses the end of the page. */
  lemma CrossingBump(m: MemInfo, s: World, i: nat, x: Call)
    requires Inv(m, s) && Fits(m, s) && Asks(s, x) && Bumper(s, i) && HasTail(s, s.threads[i].call.typeId)
    requires var start := Last(s.lists[s.threads[i].call.typeId]);
      s.chunks[start].nextAddr + s.threads[i].call.size > start + m.pageSize
    ensures !Safe(m, Act(m, s, i, x))
  {
    hide Inv, Act, Fits;
    BumpAdvances(m, s, i, x);
    var s' := Act(m, s, i, x);
    assert !InChunk(m, s'.returned[|s'.returned| - 1]);
  }

  /** Where the threads are after k of the bumps. */
  ghost predicate Bumped(m: MemInfo, s: World, s': World, n: nat, k: nat, x: Call)
    requires Asks(s, x) && HasTail(s, x.typeId)
  {
    var start := Last(s.lists[x.typeId]);
    && Inv(m, s') && Fits(m, s') && s'.types == s.types && s'.lists == s.lists && |s'.threads| == |s.threads|
    && s'.next == s.next && start in s'.chunks && s'.chunks[start].nextAddr == start + Times(x.size, k)
    && (forall i :: k <= i < n && i < |s.threads| ==> s'.threads[i].Bumping? && s'.threads[i].call == x)
  }

  /** All of them bump the chunk that was opened last, until one crosses its end. */
  lemma {:induction false} BumpAll(m: MemInfo, s0: World, sched: seq<Move>, s: World, n: nat, k: nat, x: Call)
    returns (more: seq<Move>, s': World)
    requires Asks(s, x) && 0 < n && Opened(m, s, n, x) && k < n && x.size <= m.pageSize
    requires m.pageSize > 0 && WellFormed(s0) && Leads(m, s0, sched, s)
    requires Times(x.size, k) <= m.pageSize && s.next + m.pageSize <= TWO_56
    ensures Leads(m, s0, more, s') && Bumped(m, s, s', n, k, x)
  {
    hide Inv, Leads, Fits;
    if k == 0 {
      more, s' := sched, s;
    } else {
      TimesMonotone(x.size, x.size, k - 1, k);
      var s1;
      more, s1 := BumpAll(m, s0, sched, s, n, k - 1, x);
      s' := NextBump(m, s, s1, n, k, x);
      more := OneMore(m, s0, more, s1, k - 1, x);
    }
  }

  lemma NextBump(m: MemInfo, s: World, s1: World, n: nat, k: nat, x: Call) returns (s': World)
    requires Asks(s, x) && HasTail(s, x.typeId) && 0 < k < n <= |s.threads| && Bumped(m, s, s1, n, k - 1, x)
    requires Times(x.size, k) <= m.pageSize && s.next + m.pageSize <= TWO_56
    ensures m.pageSize > 0 && WellFormed(s1) && k - 1 < |s1.threads| && Asks(s1, x)
    ensures s' == Act(m, s1, k - 1, x) && Bumped(m, s, s', n, k, x)
  {
    hide Inv, Act;
    BumpAdvances(m, s1, k - 1, x);
    BumpKeepsInv(m, s1, k - 1, x);
    s' := Act(m, s1, k - 1, x);
    TailBelowNext(m, s1, x);
    assert Times(x.size, k) == Times(x.size, k - 1) + x.size;
  }

  lemma TailBelowNext(m: MemInfo, s: World, x: Call)
    requires Inv(m, s) && HasTail(s, x.typeId)
    ensures Last(s.lists[x.typeId]) + m.pageSize <= s.next
  {
    TailBound(m, s, x.typeId);
  }

  /** The first multiple of a size behind the end of a page. */
  lemma FirstCrossing(p: nat, size: nat, n: nat) returns (k: nat)
    requires Times(size, n) > p
    ensures k < n && Times(size, k) <= p < Times(size, k + 1)
  {
    k := 0;
    while Times(size, k + 1) <= p
      invariant k < n && Times(size, k) <= p
      decreases n - k
    {
      if k + 1 >= n {
        TimesMonotone(size, size, n, k + 1);
      }
      k := k + 1;
    }
  }

  /** If a page cannot hold an object of each of n threads, they can race for it. */
  lemma RaceIsUnsafe(m: MemInfo, s: World, x: Call, n: nat) returns (sched: seq<Move>)
    requires Asks(s, x) && x.size <= m.pageSize && Opened(m, s, 0, x)
    requires 0 < n <= Min(|s.threads|, m.pageCount) && UpperBound(m) + 2 * m.pageSize <= TWO_56
    requires Times(x.size, n) > m.pageSize
    ensures m.pageSize > 0 && WellFormed(s) && Feasible(m, s, sched) && Playable(s, sched)
    ensures !Safe(m, Play(m, s, sched))
  {
    hide Inv, Fits, Feasible, Play, Safe;
    var opens, s1 := OpenAll(m, s, n, x);
    var k := FirstCrossing(m.pageSize, x.size, n);
    PagesGone(m, n - 1);
    PagesGone(m, n);
    var s2;
    sched, s2 := BumpAll(m, s, opens, s1, n, k, x);
    assert Times(x.size, k + 1) == Times(x.size, k) + x.size;
    CrossingBump(m, s2, k, x);
    CrossingFits(m, s2, k, x);
    sched := OneMore(m, s, sched, s2, k, x);
  }

  /** The counters stay within an address after a bump that leaves another page. */
  lemma CrossingFits(m: MemInfo, s: World, i: nat, x: Call)
    requires Inv(m, s) && Fits(m, s) && Asks(s, x) && Bumper(s, i) && HasTail(s, s.threads[i].call.typeId)
    requires s.chunks[Last(s.lists[s.threads[i].call.typeId])].nextAddr + 2 * m.pageSize <= TWO_56
    ensures Fits(m, Act(m, s, i, x))
  {
    hide Act;
    BumpAdvances(m, s, i, x);
    TailBound(m, s, s.threads[i].call.typeId);
  }

  // The chunk at page one

  /** Thread a is about to bump the chunk at page one, which was bumped k times
      before, and thread b is idle. */
  ghost predicate Rung(m: MemInfo, s: World, a: nat, b: nat, x: Call, k: nat) {
    && Inv(m, s) && Fits(m, s) && Asks(s, x) && x.size < m.pageSize && AtPageOne(m, s, x.typeId)
    && b < |s.threads| && a != b && Bumper(s, a) && s.threads[a].call == x && s.threads[b].Idle?
    && s.chunks[m.pageSize].nextAddr == m.pageSize + Times(x.size, k)
    && m.addr == m.pageSize && 4 * m.pageSize <= TWO_56
  }

  ghost predicate OthersIdle(s: World, a: nat, b: nat) {
    forall i :: 0 <= i < |s.threads| && i != a && i != b ==> s.threads[i].Idle?
  }

  /** An idle thread makes its first load. */
  lemma LoadsFirst(m: MemInfo, s: World, b: nat, x: Call) returns (s': World)
    requires Inv(m, s) && Fits(m, s) && b < |s.threads| && AtPageOne(m, s, x.typeId) && x.size <= m.pageSize
    requires Asks(s, x)
    requires s.threads[b].Idle?
    ensures m.pageSize > 0 && WellFormed(s) && s' == Act(m, s, b, x) && Inv(m, s') && Fits(m, s')
    ensures s' == s.(threads := s.threads[b := Testing(x, s.chunks[m.pageSize].nextAddr)])
  {
    hide Inv;
    s' := Act(m, s, b, x);
    StepKeepsInv(m, s, b, x);
  }

  /** A bump of the chunk at page one that starts in it. */
  lemma BumpsPageOne(m: MemInfo, s: World, a: nat, x: Call) returns (s': World)
    requires Inv(m, s) && Fits(m, s) && AtPageOne(m, s, x.typeId) && Bumper(s, a) && s.threads[a].call == x
    requires s.chunks[m.pageSize].nextAddr <= 2 * m.pageSize && 4 * m.pageSize <= TWO_56
    ensures m.pageSize > 0 && WellFormed(s) && s' == Act(m, s, a, x) && Inv(m, s') && Fits(m, s')
    ensures AtPageOne(m, s', x.typeId)
    ensures s'.threads == s.threads[a := Idle]
    ensures s'.chunks[m.pageSize].nextAddr == s.chunks[m.pageSize].nextAddr + x.size
  {
    hide Act, Inv;
    s' := Act(m, s, a, x);
    BumpAdvances(m, s, a, x);
    BumpKeepsInv(m, s, a, x);
    CrossingFits(m, s, a, x);
  }

  /** The second load comes one object later than the first, in the same page. */
  lemma PassesTest(m: MemInfo, s: World, b: nat, x: Call, k: nat) returns (s': World)
    requires Inv(m, s) && Fits(m, s) && AtPageOne(m, s, x.typeId) && b < |s.threads|
    requires s.threads[b] == Testing(x, m.pageSize + Times(x.size, k))
    requires Times(x.size, k + 1) < m.pageSize
    requires s.chunks[m.pageSize].nextAddr == m.pageSize + Times(x.size, k + 1)
    ensures m.pageSize > 0 && WellFormed(s) && s' == Act(m, s, b, x) && Inv(m, s') && Fits(m, s')
    ensures s' == s.(threads := s.threads[b := Passing(x)])
  {
    hide Act, Inv;
    s' := Act(m, s, b, x);
    TestOutcome(m, s, b, x);
    StepKeepsInv(m, s, b, x);
    DivModUnique(m.pageSize + Times(x.size, k + 1), m.pageSize, 1, Times(x.size, k + 1));
    assert Times(x.size, k + 1) == Times(x.size, k) + x.size;
  }

  /** One thread bumps between the loads of the other, which then passes: the roles
      are exchanged. */
  lemma Climb(m: MemInfo, s0: World, sched: seq<Move>, s: World, a: nat, b: nat, x: Call, k: nat)
    returns (more: seq<Move>, s': World)
    requires Rung(m, s, a, b, x, k) && m.pageSize > 0 && WellFormed(s0) && Leads(m, s0, sched, s)
    requires Times(x.size, k + 1) < m.pageSize && OthersIdle(s, a, b)
    ensures Leads(m, s0, more, s') && Rung(m, s', b, a, x, k + 1) && OthersIdle(s', a, b)
    ensures s'.types == s.types && |s'.threads| == |s.threads|
  {
    hide Inv, Leads, Act, Fits;
    assert Times(x.size, k + 1) == Times(x.size, k) + x.size;
    var s1 := LoadsFirst(m, s, b, x);
    more := OneMore(m, s0, sched, s, b, x);
    var s2 := BumpsPageOne(m, s1, a, x);
    more := OneMore(m, s0, more, s1, a, x);
    s' := PassesTest(m, s2, b, x, k);
    more := OneMore(m, s0, more, s2, b, x);
  }

  lemma {:induction false} ClimbTo(m: MemInfo, s0: World, sched: seq<Move>, s: World, x: Call, k: nat)
    returns (more: seq<Move>, s': World, a: nat, b: nat)
    requires Asks(s, x) && Rung(m, s, 0, 1, x, 0) && m.pageSize > 0 && WellFormed(s0) && Leads(m, s0, sched, s)
    requires Times(x.size, k) < m.pageSize && OthersIdle(s, 0, 1)
    ensures Leads(m, s0, more, s') && Rung(m, s', a, b, x, k) && OthersIdle(s', a, b) && a < 2 && b < 2
    ensures s'.types == s.types && |s'.threads| == |s.threads|
  {
    hide Rung, Leads, OthersIdle;
    if k == 0 {
      more, s', a, b := sched, s, 0, 1;
    } else {
      var size := x.size;
      TimesMonotone(size, size, k - 1, k);
      var s1;
      more, s1, b, a := ClimbTo(m, s0, sched, s, x, k - 1);
      more, s' := Climb(m, s0, more, s1, b, a, x, k - 1);
      assert OthersIdle(s', a, b) by { OthersSwap(s', a, b); }
    }
  }

  lemma OthersSwap(s: World, a: nat, b: nat)
    requires OthersIdle(s, b, a)
    ensures OthersIdle(s, a, b)
  {
  }

  /** Thread 0 opens the chunk at page one. */
  lemma FirstRung(m: MemInfo, s: World, x: Call) returns (sched: seq<Move>, s': World)
    requires Asks(s, x) && x.size < m.pageSize && Opened(m, s, 0, x) && m.addr == m.pageSize
    requires |s.threads| >= 2 && m.pageCount > 0 && UpperBound(m) + 2 * m.pageSize <= TWO_56
    ensures m.pageSize > 0 && WellFormed(s) && Leads(m, s, sched, s')
    ensures Rung(m, s', 0, 1, x, 0) && OthersIdle(s', 0, 1) && s'.types == s.types && |s'.threads| == |s.threads|
  {
    hide Inv, Leads, Fits;
    PagesGone(m, 0);
    assert Times(m.pageSize, 0) == 0 && Times(m.pageSize, 1) == m.pageSize && Times(x.size, 0) == 0;
    sched, s' := OpenAll(m, s, 1, x);
  }

  /** Sizes that do not divide the page: two threads climb to its last place, and the
      next bump crosses. */
  lemma RestIsUnsafe(m: MemInfo, s: World, x: Call) returns (sched: seq<Move>)
    requires Asks(s, x) && 0 < x.size < m.pageSize && Opened(m, s, 0, x) && m.addr == m.pageSize
    requires |s.threads| >= 2 && m.pageCount > 0 && UpperBound(m) + 2 * m.pageSize <= TWO_56
    requires m.pageSize % x.size != 0
    ensures m.pageSize > 0 && WellFormed(s) && Feasible(m, s, sched) && Playable(s, sched)
    ensures !Safe(m, Play(m, s, sched))
  {
    hide Inv, Fits, Feasible, Play, Safe;
    var size, k := x.size, m.pageSize / x.size;
    LastPlace(m.pageSize, size);
    var more, s1 := FirstRung(m, s, x);
    var s2, a, b;
    more, s2, a, b := ClimbTo(m, s, more, s1, x, k);
    CrossingBump(m, s2, a, x);
    var s3 := BumpsPageOne(m, s2, a, x);
    sched := OneMore(m, s, more, s2, a, x);
  }

  /** The last place that starts in the page, when it does not end with it. */
  lemma LastPlace(p: nat, size: nat)
    requires 0 < size && p % size != 0
    ensures Times(size, p / size) < p < Times(size, p / size) + size
  {
    TimesIsMul(size, p / size);
    assert p == size * (p / size) + p % size;
  }

  /** Three threads: one bumps between the loads of the two others, and both pass,
      for one place. */
  lemma CrowdIsUnsafe(m: MemInfo, s: World, x: Call) returns (sched: seq<Move>)
    requires Asks(s, x) && 0 < x.size < m.pageSize && Opened(m, s, 0, x) && m.addr == m.pageSize
    requires |s.threads| >= 3 && m.pageCount > 0 && UpperBound(m) + 2 * m.pageSize <= TWO_56
    requires m.pageSize % x.size == 0
    ensures m.pageSize > 0 && WellFormed(s) && Feasible(m, s, sched) && Playable(s, sched)
    ensures !Safe(m, Play(m, s, sched))
  {
    hide Inv, Fits, Feasible, Play, Safe;
    var size, k := x.size, m.pageSize / x.size - 2;
    LastPlaces(m.pageSize, size);
    var more, s1 := FirstRung(m, s, x);
    var s2, a, b;
    more, s2, a, b := ClimbTo(m, s, more, s1, x, k);
    var s3;
    more, s3 := BothPass(m, s, more, s2, a, b, 2, x, k);
    var s4 := BumpsPageOne(m, s3, b, x);
    more := OneMore(m, s, more, s3, b, x);
    CrossingBump(m, s4, 2, x);
    var s5 := BumpsPageOne(m, s4, 2, x);
    sched := OneMore(m, s, more, s4, 2, x);
  }

  lemma LastPlaces(p: nat, size: nat)
    requires 0 < size < p && p % size == 0
    ensures p / size >= 2 && Times(size, p / size) == p
    ensures Times(size, p / size - 2) + 2 * size == Times(size, p / size - 1) + size == p
  {
    var n := p / size;
    assert p == size * n;
    if n < 2 {
      MulMonotone(size, n, 1);
    }
    TimesIsMul(size, n);
    assert Times(size, n) == Times(size, n - 1) + size && Times(size, n - 1) == Times(size, n - 2) + size;
  }

  lemma BothPass(m: MemInfo, s0: World, sched: seq<Move>, s: World, a: nat, b: nat, c: nat, x: Call, k: nat)
    returns (more: seq<Move>, s': World)
    requires Rung(m, s, a, b, x, k) && OthersIdle(s, a, b) && c < |s.threads| && c != a && c != b
    requires m.pageSize > 0 && WellFormed(s0) && Leads(m, s0, sched, s)
    requires Times(x.size, k + 1) < m.pageSize
    ensures Leads(m, s0, more, s') && Inv(m, s') && Fits(m, s') && AtPageOne(m, s', x.typeId) && s'.types == s.types
    ensures |s'.threads| == |s.threads| && s'.threads[b] == Passing(x) && s'.threads[c] == Passing(x)
    ensures s'.chunks[m.pageSize].nextAddr == m.pageSize + Times(x.size, k + 1)
  {
    hide Inv, Leads, Act, Fits;
    assert Times(x.size, k + 1) == Times(x.size, k) + x.size;
    var s1 := LoadsFirst(m, s, b, x);
    more := OneMore(m, s0, sched, s, b, x);
    var s2 := LoadsFirst(m, s1, c, x);
    more := OneMore(m, s0, more, s1, c, x);
    var s3 := BumpsPageOne(m, s2, a, x);
    more := OneMore(m, s0, more, s2, a, x);
    var s4 := PassesTest(m, s3, b, x, k);
    more := OneMore(m, s0, more, s3, b, x);
    s' := PassesTest(m, s4, c, x, k);
    more := OneMore(m, s0, more, s4, c, x);
  }

  // The exact condition

  /** What a size must meet: as many objects of it fit into a page as there are threads,
      or pages when these are fewer. In a pool that starts at page one, with two threads
      or more, objects are whole pages, or there are two threads only and the size
      divides the page. */
  predicate SizeOk(m: MemInfo, threadCount: nat, size: nat)
    requires size > 0
  {
    && size * Min(threadCount, m.pageCount) <= m.pageSize
    && (m.addr == m.pageSize && threadCount >= 2 && m.pageCount > 0 ==>
          size == m.pageSize || (threadCount == 2 && m.pageSize % size == 0))
  }

  /** What has been returned after a run is safe. */
  ghost predicate EndsSafe(m: MemInfo, types: seq<Option<nat>>, threadCount: nat, sched: seq<Move>)
    requires m.pageSize > 0 && Feasible(m, Start(m, types, threadCount), sched)
  {
    FeasiblePlayable(m, Start(m, types, threadCount), sched);
    Safe(m, Play(m, Start(m, types, threadCount), sched))
  }

  /** Every interleaving returns objects that lie in one page and do not overlap, if
      and only if every size that the types allow and that can be allocated is so. */
  lemma SafeExactly(m: MemInfo, types: seq<Option<nat>>, threadCount: nat)
    requires PoolOk(m) && UpperBound(m) + 2 * m.pageSize <= TWO_56
    ensures (forall sched :: Feasible(m, Start(m, types, threadCount), sched) ==>
               EndsSafe(m, types, threadCount, sched))
       <==> (forall x :: MayAsk(types, x) && 0 < x.size <= m.pageSize ==> SizeOk(m, threadCount, x.size))
  {
    hide Inv, Feasible, Play, Safe, Fits, SizeOk, MayAsk;
    var s := Start(m, types, threadCount);
    StartInv(m, types, threadCount);
    if x :| MayAsk(types, x) && 0 < x.size <= m.pageSize && !SizeOk(m, threadCount, x.size) {
      var sched := SomeRace(m, s, x);
    } else {
      forall sched | Feasible(m, s, sched)
        ensures EndsSafe(m, types, threadCount, sched)
      {
        FeasiblePlayable(m, s, sched);
        AllSizesOk(m, types, threadCount, sched);
      }
    }
  }

  lemma StartOpened(m: MemInfo, s: World, x: Call)
    requires s == Start(m, s.types, |s.threads|) && Inv(m, s) && Asks(s, x)
    requires UpperBound(m) + 2 * m.pageSize <= TWO_56
    ensures Opened(m, s, 0, x)
  {
  }

  lemma SomeRace(m: MemInfo, s: World, x: Call) returns (sched: seq<Move>)
    requires s == Start(m, s.types, |s.threads|) && Inv(m, s) && Asks(s, x) && x.size <= m.pageSize
    requires UpperBound(m) + 2 * m.pageSize <= TWO_56 && !SizeOk(m, |s.threads|, x.size)
    ensures m.pageSize > 0 && WellFormed(s) && Feasible(m, s, sched) && Playable(s, sched)
    ensures !Safe(m, Play(m, s, sched))
  {
    hide Inv, Feasible, Play, Safe, Fits, Opened, Start;
    StartOpened(m, s, x);
    var n := Min(|s.threads|, m.pageCount);
    TimesIsMul(x.size, n);
    if x.size * n > m.pageSize {
      sched := RaceIsUnsafe(m, s, x, n);
    } else if m.pageSize % x.size != 0 {
      sched := RestIsUnsafe(m, s, x);
    } else {
      sched := CrowdIsUnsafe(m, s, x);
    }
  }

  lemma AllSizesOk(m: MemInfo, types: seq<Option<nat>>, threadCount: nat, sched: seq<Move>)
    requires Inv(m, Start(m, types, threadCount))
    requires Feasible(m, Start(m, types, threadCount), sched) && Playable(Start(m, types, threadCount), sched)
    requires forall x :: MayAsk(types, x) && 0 < x.size <= m.pageSize ==> SizeOk(m, threadCount, x.size)
    ensures Safe(m, Play(m, Start(m, types, threadCount), sched))
  {
    hide Inv, Feasible, Play, Safe, Fits;
    var s := Start(m, types, threadCount);
    AllSpacious(m, s);
    if NoRace(m, s) {
      NonePassedRun(m, s, sched);
      SameSpace(m, s, Play(m, s, sched));
      NonePassedIsSafe(m, Play(m, s, sched));
    } else {
      AllTiling(m, s);
      PairRun(m, s, sched);
      PairIsSafe(m, Play(m, s, sched));
    }
  }

  lemma AllSpacious(m: MemInfo, s: World)
    requires forall x :: MayAsk(s.types, x) && 0 < x.size <= m.pageSize ==> SizeOk(m, |s.threads|, x.size)
    ensures Spacious(m, s)
  {
    forall t | 0 <= t < |s.types| && Unit(m, s, t) <= m.pageSize
      ensures Times(Unit(m, s, t), Min(|s.threads|, m.pageCount)) <= m.pageSize
    {
      var x := Call(t, Unit(m, s, t));
      assert MayAsk(s.types, x);
      TimesIsMul(x.size, Min(|s.threads|, m.pageCount));
    }
  }

  lemma AllTiling(m: MemInfo, s: World)
    requires m.pageSize > 0 && !NoRace(m, s)
    requires forall x :: MayAsk(s.types, x) && 0 < x.size <= m.pageSize ==> SizeOk(m, |s.threads|, x.size)
    ensures |s.threads| == 2 && Tiling(m, s)
  {
    var y :| Asks(s, y) && y.size < m.pageSize;
    assert SizeOk(m, |s.threads|, y.size);
    forall x | Asks(s, x) && x.size <= m.pageSize
      ensures m.pageSize % x.size == 0
    {
      assert SizeOk(m, |s.threads|, x.size);
      DivModUnique(m.pageSize, m.pageSize, 1, 0);
    }
  }
}
