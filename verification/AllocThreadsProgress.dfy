/** What becomes of a call among other threads: every step brings it further or waits
    for a reader, it ends with one object unless the pool was drained when it fetched
    its chunk, and on a list that nobody else works on it is one call of `disagg_alloc`. */
module AllocThreadsProgress {
  import opened Options
  import opened Bits
  import opened Addr
  import opened Alloc
  import opened AllocThreads

  // One step

  /** How many steps of its own a call can still take. */
  function Left(pc: Pc): nat {
    match pc
    case Idle => 0
    case Testing(_, _) => 4
    case Fetching(_) => 3
    case Inserting(_, _) => 2
    case Passing(_) => 1
    case Bumping(_, _) => 1
  }

  /** One object more was returned: of the type and size asked for. */
  predicate Served(s: World, s': World, y: Call) {
    && |s'.returned| == |s.returned| + 1 && s'.returned[..|s.returned|] == s.returned
    && Last(s'.returned).typeId == y.typeId && Last(s'.returned).size == y.size
  }

  /** What the step of a thread does to its call. */
  ghost predicate CallGoesOn(m: MemInfo, s: World, s': World, i: nat, x: Call)
    requires i < |s.threads| == |s'.threads|
  {
    var pc, pc' := s.threads[i], s'.threads[i];
    if pc.Idle? then
      // an oversized call is over at once, any other one begins
      s'.returned == s.returned && if x.size > m.pageSize then s' == s else !pc'.Idle? && pc'.call == x
    else if pc'.Idle? then
      Served(s, s', pc.call) || (pc.Inserting? && pc.addr >= UpperBound(m) && s'.returned == s.returned)
    else
      && pc'.call == pc.call && s'.returned == s.returned
      && (Left(pc') < Left(pc) || (pc.Inserting? && Locked(s, pc.call.typeId) && s' == s))
  }

  lemma StepAdvancesCall(m: MemInfo, s: World, i: nat, x: Call)
    requires m.pageSize > 0 && WellFormed(s) && i < |s.threads| && Asks(s, x)
    ensures var s' := Act(m, s, i, x);
      && CallGoesOn(m, s, s', i, x)
      && forall k :: 0 <= k < |s.threads| && k != i ==> s'.threads[k] == s.threads[k]
  {
    hide TestFull, Add64;
  }

  /** A thread that holds a page of the pool keeps its call and the page until it has
      returned an object for it. */
  lemma PageIsKept(m: MemInfo, s: World, i: nat, x: Call)
    requires m.pageSize > 0 && WellFormed(s) && i < |s.threads| && Asks(s, x) && Holds(m, s.threads[i])
    ensures var s', y := Act(m, s, i, x), s.threads[i].call;
      if Holds(m, s'.threads[i]) then s'.threads[i].call == y && s'.returned == s.returned else Served(s, s', y)
  {
    hide TestFull, Add64;
  }

  /** A call ends with nothing only after the counter has passed the end of the pool. */
  lemma NothingIfDrained(m: MemInfo, s: World, i: nat, x: Call)
    requires Inv(m, s) && i < |s.threads| && Asks(s, x) && !s.threads[i].Idle?
    requires Act(m, s, i, x).threads[i].Idle? && Act(m, s, i, x).returned == s.returned
    ensures s.next >= UpperBound(m) + m.pageSize
  {
    hide Act, TestFull, UpperBound, ChunksOk, AllReturnedOk, ClaimsOk, PoolOk;
    StepAdvancesCall(m, s, i, x);
    assert ThreadOk(m, s, i);
  }

  // Runs

  lemma {:induction false} ReturnedStays(m: MemInfo, s: World, sched: seq<Move>)
    requires m.pageSize > 0 && WellFormed(s) && Playable(s, sched)
    ensures s.returned <= Play(m, s, sched).returned
    decreases |sched|
  {
    hide Act, WellFormed;
    if sched != [] {
      StepAdvancesCall(m, s, sched[0].thread, sched[0].call);
      ReturnedStays(m, Act(m, s, sched[0].thread, sched[0].call), sched[1..]);
    }
  }

  /** An object of the type and size of a call, among those returned meanwhile. */
  ghost predicate Got(s: World, s': World, y: Call) {
    exists k :: |s.returned| <= k < |s'.returned| && s'.returned[k].typeId == y.typeId && s'.returned[k].size == y.size
  }

  /** Whatever the other threads do, no page is lost: in the end it is still held for
      the call that fetched it, or the call has got its object. */
  lemma {:induction false} PageIsServed(m: MemInfo, s: World, sched: seq<Move>, i: nat)
    requires m.pageSize > 0 && WellFormed(s) && Playable(s, sched) && i < |s.threads| && Holds(m, s.threads[i])
    ensures var s', y := Play(m, s, sched), s.threads[i].call;
      (Holds(m, s'.threads[i]) && s'.threads[i].call == y) || Got(s, s', y)
    decreases |sched|
  {
    hide Act, WellFormed;
    if sched != [] {
      var k, x, y := sched[0].thread, sched[0].call, s.threads[i].call;
      var s1 := Act(m, s, k, x);
      StepAdvancesCall(m, s, k, x);
      if k == i {
        PageIsKept(m, s, i, x);
      }
      if Holds(m, s1.threads[i]) {
        PageIsServed(m, s1, sched[1..], i);
      } else {
        ReturnedStays(m, s1, sched[1..]);
        assert Play(m, s, sched).returned[|s.returned|] == Last(s1.returned);
      }
    }
  }

  lemma {:induction false} IdleHoldNothing(m: MemInfo, threads: seq<Pc>)
    requires forall k :: 0 <= k < |threads| ==> threads[k].Idle?
    ensures Holding(m, threads) == 0
    decreases |threads|
  {
    if threads != [] {
      IdleHoldNothing(m, threads[1..]);
    }
  }

  /** From the start, in every schedule: once no call is under way, at least as many
      objects were returned as pages of the pool are gone. */
  lemma PagesBecomeObjects(m: MemInfo, types: seq<Option<nat>>, threadCount: nat, sched: seq<Move>)
    requires PoolOk(m) && Feasible(m, Start(m, types, threadCount), sched)
    requires Playable(Start(m, types, threadCount), sched)
    requires var s' := Play(m, Start(m, types, threadCount), sched);
      forall k :: 0 <= k < |s'.threads| ==> s'.threads[k].Idle?
    ensures var s' := Play(m, Start(m, types, threadCount), sched);
      m.addr + m.pageSize * |s'.returned| >= if s'.next <= UpperBound(m) then s'.next else UpperBound(m)
  {
    hide Play, Start, Feasible, Playable, PoolOk, UpperBound;
    StartInv(m, types, threadCount);
    RunKeepsInv(m, Start(m, types, threadCount), sched);
    var s' := Play(m, Start(m, types, threadCount), sched);
    IdleHoldNothing(m, s'.threads);
    TimesIsMul(m.pageSize, s'.used);
    MulMonotone(m.pageSize, s'.used, |s'.returned|);
  }

  // Nobody is blocked for ever

  function AllLeft(threads: seq<Pc>): nat {
    if threads == [] then 0 else Left(threads[0]) + AllLeft(threads[1..])
  }

  lemma {:induction false} AllLeftUpdate(threads: seq<Pc>, i: nat, pc: Pc)
    requires i < |threads|
    ensures AllLeft(threads[i := pc]) == AllLeft(threads) + Left(pc) - Left(threads[i])
    decreases |threads|
  {
    if i == 0 {
      assert threads[i := pc][1..] == threads[1..];
    } else {
      assert threads[i := pc][1..] == threads[1..][i - 1 := pc];
      AllLeftUpdate(threads[1..], i - 1, pc);
    }
  }

  /** While a call is under way some thread can bring its own call further. */
  lemma SomebodyCanMove(m: MemInfo, s: World) returns (i: nat)
    requires m.pageSize > 0 && WellFormed(s)
    requires exists k :: 0 <= k < |s.threads| && !s.threads[k].Idle?
    ensures i < |s.threads| && !s.threads[i].Idle? && Asks(s, s.threads[i].call)
    ensures var s' := Act(m, s, i, s.threads[i].call);
      && Left(s'.threads[i]) < Left(s.threads[i]) && s'.threads == s.threads[i := s'.threads[i]]
  {
    hide TestFull, Add64, UpperBound;
    i :| 0 <= i < |s.threads| && !s.threads[i].Idle?;
    if s.threads[i].Inserting? && Locked(s, s.threads[i].call.typeId) {
      var t := s.threads[i].call.typeId;
      i :| 0 <= i < |s.threads| && Reads(s.threads[i], t);
    }
    assert PcOk(s, s.threads[i]);
  }

  /** From every state the calls under way can all be brought to their ends, in no
      more steps than they have left. */
  lemma {:induction false} CallsCanFinish(m: MemInfo, s: World) returns (sched: seq<Move>)
    requires m.pageSize > 0 && WellFormed(s)
    ensures Playable(s, sched) && |sched| <= AllLeft(s.threads)
    ensures forall k :: 0 <= k < |s.threads| ==> Play(m, s, sched).threads[k].Idle?
    decreases AllLeft(s.threads)
  {
    hide Act, WellFormed;
    sched := [];
    if exists k :: 0 <= k < |s.threads| && !s.threads[k].Idle? {
      var i := SomebodyCanMove(m, s);
      var x := s.threads[i].call;
      var s1 := Act(m, s, i, x);
      AllLeftUpdate(s.threads, i, s1.threads[i]);
      var rest := CallsCanFinish(m, s1);
      sched := [Move(i, x)] + rest;
      assert sched[1..] == rest;
      assert Playable(s, sched) by {
        forall k | 1 <= k < |sched|
          ensures sched[k].thread < |s.threads| && Asks(s, sched[k].call)
        {
          assert sched[k] == rest[k - 1];
        }
      }
    }
  }

  // A call that nobody interrupts

  /** The bump pointers of the lists and the chunk counter. */
  function Shared(s: World): AllocState
    requires WellFormed(s)
  {
    AllocState(seq(|s.lists|, t requires 0 <= t < |s.lists| => Pointers(s, t)), s.next)
  }

  function Pointers(s: World, t: nat): seq<nat>
    requires WellFormed(s) && t < |s.lists|
  {
    seq(|s.lists[t]|, j requires 0 <= j < |s.lists[t]| => s.chunks[s.lists[t][j]].nextAddr)
  }

  /** The last chunk of a list is in no other place of a list. */
  ghost predicate TailOnce(s: World, t: nat, start: nat) {
    && HasTail(s, t) && Last(s.lists[t]) == start
    && forall u, j :: 0 <= u < |s.lists| && 0 <= j < |s.lists[u]| && s.lists[u][j] == start ==>
         u == t && j == |s.lists[t]| - 1
  }

  /** The state after a chunk is linked: the list of its type is one longer. */
  lemma LinkShared(s: World, s': World, t: nat, addr: nat)
    requires WellFormed(s) && WellFormed(s') && t < |s.lists| && addr !in s.chunks
    requires s'.lists == s.lists[t := s.lists[t] + [addr]]
    requires addr in s'.chunks && s'.chunks[addr].nextAddr == addr
    requires forall c :: c in s.chunks ==> c in s'.chunks && s'.chunks[c] == s.chunks[c]
    ensures Shared(s').chunks == Shared(s).chunks[t := Shared(s).chunks[t] + [addr]]
  {
    forall u | 0 <= u < |s.lists|
      ensures Pointers(s', u) == if u == t then Pointers(s, t) + [addr] else Pointers(s, u)
    {
    }
  }

  /** The state after the bump of a chunk that is in one list only, at its end. */
  lemma BumpShared(s: World, s': World, t: nat, start: nat)
    requires WellFormed(s) && WellFormed(s') && TailOnce(s, t, start)
    requires s'.lists == s.lists && start in s'.chunks
    requires forall c :: c in s.chunks && c != start ==> c in s'.chunks && s'.chunks[c] == s.chunks[c]
    ensures var list := Shared(s).chunks[t];
      && list != []
      && Shared(s').chunks == Shared(s).chunks[t := list[|list| - 1 := s'.chunks[start].nextAddr]]
  {
    var list := Pointers(s, t);
    forall u | 0 <= u < |s.lists|
      ensures Pointers(s', u) == if u == t then list[|list| - 1 := s'.chunks[start].nextAddr] else Pointers(s, u)
    {
    }
  }

  /** A thread has answered a call as `Allocate` does on the lists and the counter. */
  ghost predicate AnsweredAs(s: World, s': World, x: Call, a: AllocState, r: Option<GAddr>)
    requires WellFormed(s')
  {
    && Shared(s') == a && s'.threads == s.threads
    && s'.returned == s.returned + (if r.Some? then [Obj(x.typeId, x.size, r.value.offset, r.value.offset)] else [])
    && (r.Some? ==> r.value.typeId == x.typeId)
  }

  /** The chunk is fetched and linked. */
  lemma LinkAlone(m: MemInfo, s: World, i: nat, x: Call)
    requires Inv(m, s) && Fits(m, s) && i < |s.threads| && Asks(s, x) && x.typeId < |s.lists|
    requires s.threads[i] == Fetching(x) && !Locked(s, x.typeId)
    ensures var s1 := Act(m, s, i, x);
      var s2 := Act(m, s1, i, x);
      && Shared(s2) == OpenChunk(m, Shared(s), x.typeId) && s2.returned == s.returned
      && |s2.lists| == |s.lists|
      && s2.threads == s.threads[i := if s.next >= UpperBound(m) then Idle else Bumping(x, |s.lists[x.typeId]|)]
      && s.next < TWO_56 && TailOnce(s2, x.typeId, s.next) && s2.chunks[s.next].nextAddr == s.next
  {
    hide UpperBound, TestFull, ChunksOk, ThreadsOk, AllReturnedOk, ClaimsOk, PoolOk, Shared, Last;
    var t, addr := x.typeId, s.next;
    NotYetLinked(m, s);
    var s1 := Act(m, s, i, x);
    assert !Locked(s1, t);
    var s2 := Act(m, s1, i, x);
    LinkShared(s1, s2, t, addr);
    SharedParts(s, s1, s2);
    assert TailOnce(s2, t, addr) by { TailIsNew(s, s2, t, addr); }
  }

  lemma TailIsNew(s: World, s2: World, t: nat, addr: nat)
    requires WellFormed(s) && addr !in s.chunks && addr in s2.chunks && t < |s.lists|
    requires s2.lists == s.lists[t := s.lists[t] + [addr]]
    ensures TailOnce(s2, t, addr)
  {
  }

  lemma SharedParts(s: World, s1: World, s2: World)
    requires WellFormed(s) && WellFormed(s1) && WellFormed(s2) && s1.lists == s.lists && s1.chunks == s.chunks
    ensures Shared(s).next == s.next && Shared(s2).next == s2.next && Shared(s1).chunks == Shared(s).chunks
    ensures |Shared(s).chunks| == |s.lists|
  {
  }

  /** The chunk just linked is bumped. */
  lemma BumpAlone(m: MemInfo, s: World, i: nat, x: Call, addr: nat)
    requires m.pageSize > 0 && WellFormed(s) && i < |s.threads| && Asks(s, x) && x.typeId < |s.lists|
    requires s.threads[i].Bumping? && s.threads[i].call == x && TailOnce(s, x.typeId, addr)
    requires s.chunks[addr].nextAddr == addr < TWO_56
    ensures var s' := Act(m, s, i, x);
      && Shared(s).chunks[x.typeId] != []
      && Bump(Shared(s), x.typeId, x.size) == (Shared(s'), Some(GAddr(x.typeId, addr)))
      && s'.threads == s.threads[i := Idle] && s'.returned == s.returned + [Obj(x.typeId, x.size, addr, addr)]
  {
    hide UpperBound, TestFull;
    BumpShared(s, Act(m, s, i, x), x.typeId, addr);
    SmallMod(addr, TWO_56);
  }

  /** From the fetch on: the chunk is opened, linked and bumped. */
  lemma AloneFromFetch(m: MemInfo, s: World, i: nat, x: Call) returns (sched: seq<Move>)
    requires Inv(m, s) && Fits(m, s) && i < |s.threads| && Asks(s, x) && x.size <= m.pageSize
    requires s.threads[i] == Fetching(x) && !Locked(s, x.typeId) && x.typeId < |s.lists|
    ensures Playable(s, sched) && forall k :: 0 <= k < |sched| ==> sched[k] == Move(i, x)
    ensures |Shared(s).chunks| == |s.lists|
    ensures var a := OpenChunk(m, Shared(s), x.typeId);
      var (a', r) := if s.next >= UpperBound(m) then (a, None) else Bump(a, x.typeId, x.size);
      AnsweredAs(s.(threads := s.threads[i := Idle]), Play(m, s, sched), x, a', r)
  {
    hide UpperBound, Inv, Act, Shared, TailOnce, OpenChunk, Bump, WellFormed, Locked;
    var s1 := Act(m, s, i, x);
    var s2 := Act(m, s1, i, x);
    LinkAlone(m, s, i, x);
    SharedParts(s, s, s2);
    sched := [];
    if s.next < UpperBound(m) {
      BumpAlone(m, s2, i, x, s.next);
      sched := Before(m, s2, i, x, sched);
    }
    sched := Before(m, s1, i, x, sched);
    sched := Before(m, s, i, x, sched);
  }

  /** A schedule with one move of a thread put before it. */
  lemma Before(m: MemInfo, s: World, i: nat, x: Call, rest: seq<Move>) returns (sched: seq<Move>)
    requires m.pageSize > 0 && WellFormed(s) && i < |s.threads| && Asks(s, x)
    requires Playable(Act(m, s, i, x), rest) && forall k :: 0 <= k < |rest| ==> rest[k] == Move(i, x)
    ensures Playable(s, sched) && forall k :: 0 <= k < |sched| ==> sched[k] == Move(i, x)
    ensures Play(m, s, sched) == Play(m, Act(m, s, i, x), rest)
  {
    hide Act, WellFormed;
    sched := [Move(i, x)] + rest;
    assert sched[1..] == rest;
  }

  lemma NotYetLinked(m: MemInfo, s: World)
    requires Inv(m, s)
    ensures s.next !in s.chunks
  {
    forall c | c in s.chunks
      ensures c < s.next
    {
      assert ChunkOk(m, s, c);
    }
  }

  /** Refinement: a call on a list that nobody else works on leaves the lists and the
      counter, and returns the object, that the sequential `Allocate` says. */
  lemma AloneIsAllocate(m: MemInfo, s: World, i: nat, x: Call) returns (sched: seq<Move>)
    requires Inv(m, s) && Fits(m, s) && i < |s.threads| && Asks(s, x)
    requires s.threads[i].Idle? && !Locked(s, x.typeId)
    ensures Playable(s, sched) && forall k :: 0 <= k < |sched| ==> sched[k] == Move(i, x)
    ensures var (a, r) := Allocate(m, Shared(s), x.typeId, x.size);
      AnsweredAs(s, Play(m, s, sched), x, a, r)
  {
    hide TestFull, UpperBound, Inv, WellFormed, Act, Shared, OpenChunk, Bump, Locked;
    var s1 := Act(m, s, i, x);
    if x.size > m.pageSize {
      assert s1 == s by { StepAdvancesCall(m, s, i, x); }
      sched := Before(m, s, i, x, []);
      assert s.returned + [] == s.returned;
    } else {
      SharedParts(s, s, s);
      StartsOk(m, s, i, x);
      var s2 := s.(threads := s.threads[i := Fetching(x)]);
      var testing := s1.threads[i].Testing?;
      AloneFindsFull(m, s, i, x);
      assert s2.threads[i := Idle] == s.threads;
      assert !Locked(s2, x.typeId) by { StillUnlocked(s, s2, i, x.typeId); }
      sched := AloneFromFetch(m, s2, i, x);
      if testing {
        sched := Before(m, s1, i, x, sched);
      }
      sched := Before(m, s, i, x, sched);
    }
  }

  lemma StillUnlocked(s: World, s': World, i: nat, t: nat)
    requires !Locked(s, t) && i < |s.threads| == |s'.threads| && !Reads(s'.threads[i], t)
    requires forall k :: 0 <= k < |s.threads| && k != i ==> s'.threads[k] == s.threads[k]
    ensures !Locked(s', t)
  {
    assert forall k :: 0 <= k < |s.threads| ==> !Reads(s.threads[k], t);
  }

  /** Nothing happens between the two loads of the test, so that it answers yes. */
  lemma AloneFindsFull(m: MemInfo, s: World, i: nat, x: Call)
    requires Inv(m, s) && Fits(m, s) && i < |s.threads| && Asks(s, x) && s.threads[i].Idle? && x.size <= m.pageSize
    ensures var s1, s2 := Act(m, s, i, x), s.(threads := s.threads[i := Fetching(x)]);
      && Inv(m, s2) && Shared(s2) == Shared(s)
      && (if s1.threads[i].Testing? then Act(m, s1, i, x) == s2 else s1 == s2)
      && x.typeId < |s.lists|
      && |Shared(s).chunks| == |s.lists|
      && (Shared(s).chunks[x.typeId] != [] ==>
            ChunkFull(m.pageSize, Last(Shared(s).chunks[x.typeId]), x.size))
  {
    hide UpperBound, ChunksOk, ThreadsOk, AllReturnedOk, ClaimsOk, PoolOk, Add64, And;
    var s1 := Act(m, s, i, x);
    StartsOk(m, s, i, x);
    if s1.threads[i].Testing? {
      TestOutcome(m, s1, i, x);
      TestKeepsInv(m, s1, i, x);
      var s2 := Act(m, s1, i, x);
      assert s2.threads == s.threads[i := Fetching(x)];
    }
  }
}
