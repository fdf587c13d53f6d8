/** `disagg_alloc` called by several threads: every interleaving of the two loads of
    the chunk-full test, the fetch-and-add of the chunk counter, the insertion of the
    chunk and the bump of the last chunk's pointer, under the lock of the list. */
module AllocThreads {
  import opened Bits
  import opened Addr
  import opened Alloc
  import opened Options

  /** Where a thread stands in its call. While it is testing or passing it holds
      the read lock of its list. `pos` is where in the list it put its own chunk; it
      is history and no step reads it. */
  datatype Pc =
    | Idle
    | Testing(call: Call, first: nat)
    | Passing(call: Call)
    | Fetching(call: Call)
    | Inserting(call: Call, addr: nat)
    | Bumping(call: Call, pos: nat)

  /** A chunk reference, named by the start address it was made with. Who bumped it
      with a chunk of his own, and how often it was bumped by a thread that had
      none, is history. */
  datatype Chunk = Chunk(typeId: nat, nextAddr: nat, bumpedBy: set<nat>, passes: nat)

  /** A returned object, its size and (history) the chunk it was carved from. */
  datatype Obj = Obj(typeId: nat, size: nat, offset: nat, chunk: nat)

  /** The types, as in `MayAsk`, the shared memory, the threads, and (history) what
      they returned and how many of them used up a chunk for it. */
  datatype World = World(types: seq<Option<nat>>, next: nat, lists: seq<seq<nat>>, chunks: map<nat, Chunk>,
                         threads: seq<Pc>, returned: seq<Obj>, used: nat)

  function Start(m: MemInfo, types: seq<Option<nat>>, threadCount: nat): World {
    World(types, m.addr, seq(|types|, _ => []), map[], seq(threadCount, _ => Idle), [], 0)
  }

  /** A call that a thread may make: for one byte or more, of a size that the type
      allows. */
  predicate Asks(s: World, x: Call) {
    MayAsk(s.types, x) && x.size > 0
  }

  predicate HasTail(s: World, t: nat) {
    t < |s.lists| && s.lists[t] != [] && Last(s.lists[t]) in s.chunks
  }

  predicate PcOk(s: World, pc: Pc) {
    pc.Idle? ||
    (&& Asks(s, pc.call) && pc.call.typeId < |s.lists|
     && (pc.Testing? || pc.Passing? ==> s.lists[pc.call.typeId] != [])
     && (pc.Bumping? ==> pc.pos < |s.lists[pc.call.typeId]|))
  }

  predicate WellFormed(s: World) {
    && |s.lists| == |s.types|
    && (forall t, j :: 0 <= t < |s.lists| && 0 <= j < |s.lists[t]| ==> s.lists[t][j] in s.chunks)
    && (forall i :: 0 <= i < |s.threads| ==> PcOk(s, s.threads[i]))
  }

  predicate Reads(pc: Pc, t: nat) {
    (pc.Testing? || pc.Passing?) && pc.call.typeId == t
  }

  /** Somebody holds the read lock of a list. */
  predicate Locked(s: World, t: nat) {
    exists i :: 0 <= i < |s.threads| && Reads(s.threads[i], t)
  }

  /** atomic_fetch_add on the bump pointer of the last chunk. */
  function Carve(s: World, i: nat, x: Call, own: bool): World
    requires i < |s.threads| && HasTail(s, x.typeId)
  {
    var start := Last(s.lists[x.typeId]);
    var c := s.chunks[start];
    var c' := Chunk(c.typeId, Add64(c.nextAddr, x.size),
                    if own then c.bumpedBy + {i} else c.bumpedBy, if own then c.passes else c.passes + 1);
    s.(chunks := s.chunks[start := c'], threads := s.threads[i := Idle],
       returned := s.returned + [Obj(x.typeId, x.size, c.nextAddr % TWO_56, start)],
       used := if own then s.used + 1 else s.used)
  }

  /** The next step of thread i; an idle thread begins the call x. A thread that
      would insert waits while somebody reads. */
  function Act(m: MemInfo, s: World, i: nat, x: Call): (s': World)
    requires m.pageSize > 0 && WellFormed(s) && i < |s.threads| && Asks(s, x)
    ensures WellFormed(s') && |s'.threads| == |s.threads| && s'.types == s.types
  {
    match s.threads[i]
    case Idle =>
      if x.size > m.pageSize then s
      else if s.lists[x.typeId] == [] then s.(threads := s.threads[i := Fetching(x)])
      else s.(threads := s.threads[i := Testing(x, s.chunks[Last(s.lists[x.typeId])].nextAddr)])
    case Testing(y, first) =>
      if TestFull(m.pageSize, first, s.chunks[Last(s.lists[y.typeId])].nextAddr, y.size)
      then s.(threads := s.threads[i := Fetching(y)])
      else s.(threads := s.threads[i := Passing(y)])
    case Passing(y) =>
      Carve(s, i, y, false)
    case Fetching(y) =>
      s.(next := Add64(s.next, m.pageSize), threads := s.threads[i := Inserting(y, s.next)])
    case Inserting(y, addr) =>
      if Locked(s, y.typeId) then s
      else
        s.(lists := s.lists[y.typeId := s.lists[y.typeId] + [addr]],
           chunks := s.chunks[addr := Chunk(y.typeId, addr, {}, 0)],
           threads := s.threads[i := if addr >= UpperBound(m) then Idle else Bumping(y, |s.lists[y.typeId]|)])
    case Bumping(y, _) =>
      Carve(s, i, y, true)
  }

  /** Which thread moves next, and what it asks for if it starts a call. */
  datatype Move = Move(thread: nat, call: Call)

  predicate Playable(s: World, sched: seq<Move>) {
    forall k :: 0 <= k < |sched| ==> sched[k].thread < |s.threads| && Asks(s, sched[k].call)
  }

  function Play(m: MemInfo, s: World, sched: seq<Move>): (s': World)
    requires m.pageSize > 0 && WellFormed(s) && Playable(s, sched)
    ensures WellFormed(s') && |s'.threads| == |s.threads| && s'.types == s.types
    decreases |sched|
  {
    if sched == [] then s
    else Play(m, Act(m, s, sched[0].thread, sched[0].call), sched[1..])
  }

  /** The chunk counter and all bump pointers leave room for a page below 2^56. */
  predicate Fits(m: MemInfo, s: World) {
    s.next + m.pageSize <= TWO_56 && forall c :: c in s.chunks ==> s.chunks[c].nextAddr + m.pageSize <= TWO_56
  }

  /** A run in which no counter outgrows the 56 bits of an address. */
  predicate Feasible(m: MemInfo, s: World, sched: seq<Move>)
    requires m.pageSize > 0 && WellFormed(s)
    decreases |sched|
  {
    && Fits(m, s)
    && (sched != [] ==>
          && sched[0].thread < |s.threads| && Asks(s, sched[0].call)
          && Feasible(m, Act(m, s, sched[0].thread, sched[0].call), sched[1..]))
  }

  lemma {:induction false} FeasiblePlayable(m: MemInfo, s: World, sched: seq<Move>)
    requires m.pageSize > 0 && WellFormed(s) && Feasible(m, s, sched)
    ensures Playable(s, sched)
    decreases |sched|
  {
    if sched != [] {
      FeasiblePlayable(m, Act(m, s, sched[0].thread, sched[0].call), sched[1..]);
      assert forall k :: 1 <= k < |sched| ==> sched[k] == sched[1..][k - 1];
    }
  }

  // Pages used up

  /** Threads that fetched a chunk of the pool and have not bumped yet. */
  predicate Holds(m: MemInfo, pc: Pc) {
    (pc.Inserting? && pc.addr < UpperBound(m)) || pc.Bumping?
  }

  function Holding(m: MemInfo, threads: seq<Pc>): nat {
    if threads == [] then 0 else (if Holds(m, threads[0]) then 1 else 0) + Holding(m, threads[1..])
  }

  lemma {:induction false} HoldingUpdate(m: MemInfo, threads: seq<Pc>, i: nat, pc: Pc)
    requires i < |threads|
    ensures Holding(m, threads[i := pc]) == Holding(m, threads)
      + (if Holds(m, pc) then 1 else 0) - (if Holds(m, threads[i]) then 1 else 0)
    decreases |threads|
  {
    if i == 0 {
      assert threads[i := pc][1..] == threads[1..];
    } else {
      assert threads[i := pc][1..] == threads[1..][i - 1 := pc];
      HoldingUpdate(m, threads[1..], i - 1, pc);
    }
  }

  function Min(a: nat, b: nat): nat { if a <= b then a else b }

  // The invariant

  function Bumps(c: Chunk): nat { |c.bumpedBy| + c.passes }

  /** The most that one bump of a chunk of type t takes. */
  function Unit(m: MemInfo, s: World, t: nat): nat
    requires t < |s.types|
  {
    if s.types[t].Some? then s.types[t].value else m.pageSize
  }

  /** Only a chunk at the address of page one can be bumped by a thread that has no
      chunk of its own. */
  ghost predicate ChunkOk(m: MemInfo, s: World, start: nat)
    requires start in s.chunks && m.pageSize > 0
  {
    var c := s.chunks[start];
    && start % m.pageSize == 0 && m.addr <= start && start + m.pageSize <= s.next
    && c.typeId < |s.types| && 0 < Unit(m, s, c.typeId) <= m.pageSize
    && start <= c.nextAddr <= start + Times(Unit(m, s, c.typeId), Bumps(c))
    && (s.types[c.typeId].Some? ==> c.nextAddr == start + Times(Unit(m, s, c.typeId), Bumps(c)))
    && (forall i :: i in c.bumpedBy ==> 0 <= i < |s.threads|)
    && |c.bumpedBy| <= s.used
    && (c.passes > 0 ==> start == m.pageSize)
  }

  ghost predicate PendingOk(m: MemInfo, s: World, addr: nat)
    requires m.pageSize > 0
  {
    addr !in s.chunks && addr % m.pageSize == 0 && m.addr <= addr && addr + m.pageSize <= s.next
  }

  ghost predicate ThreadOk(m: MemInfo, s: World, i: nat)
    requires WellFormed(s) && i < |s.threads| && m.pageSize > 0
  {
    var pc := s.threads[i];
    (!pc.Idle? ==> pc.call.size <= m.pageSize) &&
    match pc
    case Idle => true
    case Testing(x, first) => Last(s.lists[x.typeId]) <= first <= s.chunks[Last(s.lists[x.typeId])].nextAddr
    case Passing(x) => Last(s.lists[x.typeId]) == m.pageSize
    case Fetching(_) => true
    case Inserting(_, addr) => PendingOk(m, s, addr)
    case Bumping(x, pos) =>
      // no chunk from the thread's own one onwards was bumped by it before
      forall j :: pos <= j < |s.lists[x.typeId]| ==> i !in s.chunks[s.lists[x.typeId][j]].bumpedBy
  }

  ghost predicate ReturnedOk(s: World, o: Obj) {
    && o.chunk in s.chunks && o.typeId == s.chunks[o.chunk].typeId && Asks(s, Call(o.typeId, o.size))
    && o.chunk <= o.offset && o.offset + o.size <= s.chunks[o.chunk].nextAddr
  }

  ghost predicate ChunksOk(m: MemInfo, s: World)
    requires m.pageSize > 0 && WellFormed(s)
  {
    && (forall c :: c in s.chunks ==> ChunkOk(m, s, c))
    && (forall t, j :: 0 <= t < |s.lists| && 0 <= j < |s.lists[t]| ==> s.chunks[s.lists[t][j]].typeId == t)
  }

  ghost predicate ThreadsOk(m: MemInfo, s: World)
    requires m.pageSize > 0 && WellFormed(s)
  {
    && (forall i :: 0 <= i < |s.threads| ==> ThreadOk(m, s, i))
    && (forall i, j :: 0 <= i < j < |s.threads| && s.threads[i].Inserting? && s.threads[j].Inserting? ==>
          s.threads[i].addr != s.threads[j].addr)
  }

  ghost predicate AllReturnedOk(s: World) {
    && (forall k :: 0 <= k < |s.returned| ==> ReturnedOk(s, s.returned[k]))
    && (forall k, l :: 0 <= k < l < |s.returned| && s.returned[k].chunk == s.returned[l].chunk ==>
          s.returned[k].offset + s.returned[k].size <= s.returned[l].offset)
  }

  /** Every page of the pool that is gone was used up for an object, or a thread
      holds its chunk. */
  ghost predicate ClaimsOk(m: MemInfo, s: World) {
    && m.addr + Times(m.pageSize, s.used + Holding(m, s.threads)) == Min(s.next, UpperBound(m))
    && s.used <= |s.returned|
  }

  /** What every step of every thread keeps. */
  ghost predicate Inv(m: MemInfo, s: World)
    ensures Inv(m, s) ==> PoolOk(m) && m.pageSize > 0 && WellFormed(s)
  {
    && PoolOk(m) && WellFormed(s)
    && s.next % m.pageSize == 0 && m.addr <= s.next
    && ChunksOk(m, s) && ThreadsOk(m, s) && AllReturnedOk(s) && ClaimsOk(m, s)
  }

  lemma {:induction false} HoldingNone(m: MemInfo, n: nat)
    ensures Holding(m, seq(n, _ => Idle)) == 0
    decreases n
  {
    if n > 0 {
      assert seq(n, _ => Idle)[1..] == seq(n - 1, _ => Idle);
      HoldingNone(m, n - 1);
    }
  }

  lemma StartInv(m: MemInfo, types: seq<Option<nat>>, threadCount: nat)
    requires PoolOk(m)
    ensures Inv(m, Start(m, types, threadCount))
  {
    HoldingNone(m, threadCount);
    assert UpperBound(m) >= m.addr;
  }

  /** No more chunks are used or under way than the pool has pages. */
  lemma ClaimsBound(m: MemInfo, s: World)
    requires Inv(m, s)
    ensures s.used + Holding(m, s.threads) <= m.pageCount
  {
    TimesIsMul(m.pageSize, m.pageCount);
    TimesCancel(m.pageSize, s.used + Holding(m, s.threads), m.pageCount);
  }

  /** Threads that do not move are not disturbed by a step that inserts no chunk
      they fetched, marks no chunk as bumped by them, and changes no list they read. */
  lemma OthersOk(m: MemInfo, s: World, s': World, i: nat)
    requires m.pageSize > 0 && WellFormed(s) && WellFormed(s') && ThreadsOk(m, s)
    requires i < |s.threads| == |s'.threads| && s'.threads == s.threads[i := s'.threads[i]] && s'.types == s.types
    requires s.next <= s'.next
    requires forall k :: 0 <= k < |s.threads| && k != i && s.threads[k].Inserting? ==>
      (s.threads[k].addr in s'.chunks ==> s.threads[k].addr in s.chunks)
    requires forall t :: 0 <= t < |s.lists| ==>
      |s.lists[t]| <= |s'.lists[t]| && s.lists[t] == s'.lists[t][..|s.lists[t]|]
    requires forall c, k :: c in s'.chunks && k != i && k in s'.chunks[c].bumpedBy ==>
      c in s.chunks && k in s.chunks[c].bumpedBy
    requires forall t, j :: 0 <= t < |s.lists| && |s.lists[t]| <= j < |s'.lists[t]| ==>
      s'.chunks[s'.lists[t][j]].bumpedBy <= {i}
    requires forall k :: 0 <= k < |s.threads| && (s.threads[k].Testing? || s.threads[k].Passing?) ==>
      s'.lists[s.threads[k].call.typeId] == s.lists[s.threads[k].call.typeId]
    requires forall c :: c in s.chunks ==> c in s'.chunks && s.chunks[c].nextAddr <= s'.chunks[c].nextAddr
    ensures forall k :: 0 <= k < |s'.threads| && k != i ==> ThreadOk(m, s', k)
  {
    forall k | 0 <= k < |s'.threads| && k != i
      ensures ThreadOk(m, s', k)
    {
      assert ThreadOk(m, s, k) && s'.threads[k] == s.threads[k];
    }
  }

  // The test

  /** The tail of a list starts outside page zero. */
  lemma TailBound(m: MemInfo, s: World, t: nat)
    requires Inv(m, s) && t < |s.lists| && s.lists[t] != []
    ensures HasTail(s, t) && s.chunks[Last(s.lists[t])].typeId == t && ChunkOk(m, s, Last(s.lists[t]))
    ensures m.pageSize <= Last(s.lists[t]) <= s.chunks[Last(s.lists[t])].nextAddr
  {
    assert Last(s.lists[t]) == s.lists[t][|s.lists[t]| - 1];
  }

  /** The test answers no only if the first load is in page one and the second, at
      least one object further on, is at an offset in its page to match. */
  lemma TestMeaning(p: nat, first: nat, second: nat, size: nat)
    requires IsPowerOfTwo(p) && 0 < size <= p <= first <= second && second + p < TWO_64
    ensures !TestFull(p, first, second, size) <==> first - p + size <= second % p
    ensures !TestFull(p, first, second, size) ==> first < 2 * p && first < second && size < p
  {
    PageMasks(second, p);
    SmallMod(first + size, TWO_64);
    SmallMod(second % p + p, TWO_64);
    if first == second && first < 2 * p {
      PageParts(p, p, first - p);
    }
  }

  /** With the loads in the other order the test always answers yes. */
  lemma OtherOrder(p: nat, first: nat, second: nat, size: nat)
    requires IsPowerOfTwo(p) && 0 < size <= p <= second <= first && first + p < TWO_64
    ensures TestFull(p, first, second, size)
  {
    PageMasks(second, p);
    PageZero(p, second);
    SmallMod(first + size, TWO_64);
    SmallMod(second % p + p, TWO_64);
  }

  // Every step keeps the invariant

  /** The thread alone changes its place in the call; nothing of the pool is used. */
  ghost predicate OnlyThread(m: MemInfo, s: World, s': World, i: nat) {
    && i < |s.threads| && s' == s.(threads := s'.threads) && |s'.threads| == |s.threads|
    && s'.threads == s.threads[i := s'.threads[i]]
    && !Holds(m, s.threads[i]) && !Holds(m, s'.threads[i]) && !s'.threads[i].Inserting?
  }

  lemma OnlyThreadKeepsInv(m: MemInfo, s: World, s': World, i: nat)
    requires Inv(m, s) && WellFormed(s') && OnlyThread(m, s, s', i) && ThreadOk(m, s', i)
    ensures Inv(m, s')
  {
    hide Times;
    HoldingUpdate(m, s.threads, i, s'.threads[i]);
    OthersOk(m, s, s', i);
    assert ChunksOk(m, s') by {
      forall c | c in s'.chunks
        ensures ChunkOk(m, s', c)
      {
        assert ChunkOk(m, s, c);
      }
    }
  }

  lemma StartsOk(m: MemInfo, s: World, i: nat, x: Call)
    requires Inv(m, s) && i < |s.threads| && Asks(s, x) && s.threads[i].Idle?
    ensures Inv(m, Act(m, s, i, x))
  {
    var s' := Act(m, s, i, x);
    if s' != s {
      if s.lists[x.typeId] != [] {
        TailBound(m, s, x.typeId);
      }
      OnlyThreadKeepsInv(m, s, s', i);
    }
  }

  /** A thread passes the test only if the last chunk is the one at page one, and
      somebody bumped it between the loads. */
  lemma TestOutcome(m: MemInfo, s: World, i: nat, x: Call)
    requires Inv(m, s) && Fits(m, s) && i < |s.threads| && Asks(s, x) && s.threads[i].Testing?
    ensures var y, first := s.threads[i].call, s.threads[i].first;
      var start := Last(s.lists[y.typeId]);
      && HasTail(s, y.typeId) && Asks(s, y) && y.size <= m.pageSize && m.pageSize <= start <= first
      && var second := s.chunks[start].nextAddr;
      && (Act(m, s, i, x).threads[i].Passing? <==> first - m.pageSize + y.size <= second % m.pageSize)
      && (Act(m, s, i, x).threads[i].Passing? ==>
            start == m.pageSize && m.addr == m.pageSize && first < second && y.size < m.pageSize)
    ensures OnlyThread(m, s, Act(m, s, i, x), i)
    ensures Act(m, s, i, x).threads[i] in {Passing(s.threads[i].call), Fetching(s.threads[i].call)}
  {
    var y, first := s.threads[i].call, s.threads[i].first;
    TailBound(m, s, y.typeId);
    assert ThreadOk(m, s, i);
    var start := Last(s.lists[y.typeId]);
    TestMeaning(m.pageSize, first, s.chunks[start].nextAddr, y.size);
    if start != m.pageSize {
      PageZero(m.pageSize, start);
      FarPage(m.pageSize, start);
    }
  }

  lemma FarPage(p: nat, start: nat)
    requires 0 < p < start && start % p == 0
    ensures start >= 2 * p
  {
    assert start == p * (start / p);
    MulBound(p, start / p - 1);
  }

  lemma TestKeepsInv(m: MemInfo, s: World, i: nat, x: Call)
    requires Inv(m, s) && Fits(m, s) && i < |s.threads| && Asks(s, x) && s.threads[i].Testing?
    ensures Inv(m, Act(m, s, i, x))
  {
    TestOutcome(m, s, i, x);
    OnlyThreadKeepsInv(m, s, Act(m, s, i, x), i);
  }

  lemma FetchKeepsInv(m: MemInfo, s: World, i: nat, x: Call)
    requires Inv(m, s) && Fits(m, s) && i < |s.threads| && Asks(s, x) && s.threads[i].Fetching?
    ensures Inv(m, Act(m, s, i, x)) && Act(m, s, i, x).next == s.next + m.pageSize
  {
    hide Times;
    var p, s' := m.pageSize, Act(m, s, i, x);
    FetchAdvances(m, s, i, x);
    NextPageAligned(p, s.next);
    assert ChunksOk(m, s') by {
      forall c | c in s'.chunks
        ensures ChunkOk(m, s', c)
      {
        assert ChunkOk(m, s, c);
      }
    }
    assert ThreadsOk(m, s') by {
      OthersOk(m, s, s', i);
      assert ThreadOk(m, s, i);
      forall c | c in s.chunks
        ensures c < s.next
      {
        assert ChunkOk(m, s, c);
      }
      forall k | 0 <= k < |s.threads| && k != i && s.threads[k].Inserting?
        ensures s.threads[k].addr != s.next
      {
        assert ThreadOk(m, s, k);
      }
    }
  }

  lemma FetchAdvances(m: MemInfo, s: World, i: nat, x: Call)
    requires Inv(m, s) && Fits(m, s) && i < |s.threads| && Asks(s, x) && s.threads[i].Fetching?
    ensures ClaimsOk(m, Act(m, s, i, x)) && Act(m, s, i, x).next == s.next + m.pageSize
  {
    var p := m.pageSize;
    SmallMod(s.next + p, TWO_64);
    HoldingUpdate(m, s.threads, i, Inserting(s.threads[i].call, s.next));
    var h := s.used + Holding(m, s.threads);
    if s.next < UpperBound(m) {
      UpperBoundAligned(m);
      WholePageBelow(p, s.next, UpperBound(m));
      assert Times(p, h + 1) == Times(p, h) + p;
    }
  }

  lemma InsertKeepsInv(m: MemInfo, s: World, i: nat, x: Call)
    requires Inv(m, s) && i < |s.threads| && Asks(s, x) && s.threads[i].Inserting?
    ensures Inv(m, Act(m, s, i, x)) && Act(m, s, i, x).next == s.next
  {
    if Locked(s, s.threads[i].call.typeId) {
      return;
    }
    hide ClaimsOk, Times, PoolOk, AllReturnedOk, ChunkOk;
    var s' := Act(m, s, i, x);
    assert ClaimsOk(m, s') by { InsertKeepsClaims(m, s, i, x); }
    assert ThreadOk(m, s, i);
    assert ChunksOk(m, s') by { InsertKeepsChunks(m, s, i, x); }
    assert ThreadsOk(m, s') by { OthersOk(m, s, s', i); }
    assert AllReturnedOk(s') by { InsertKeepsReturned(m, s, i, x); }
  }

  lemma InsertKeepsChunks(m: MemInfo, s: World, i: nat, x: Call)
    requires Inv(m, s) && i < |s.threads| && Asks(s, x) && s.threads[i].Inserting?
    requires !Locked(s, s.threads[i].call.typeId)
    ensures ChunksOk(m, Act(m, s, i, x))
  {
    hide AllReturnedOk, ClaimsOk, PoolOk;
    assert ThreadOk(m, s, i);
    var s', addr := Act(m, s, i, x), s.threads[i].addr;
    forall c | c in s'.chunks
      ensures ChunkOk(m, s', c)
    {
      if c != addr {
        assert ChunkOk(m, s, c);
      }
    }
  }

  lemma InsertKeepsReturned(m: MemInfo, s: World, i: nat, x: Call)
    requires Inv(m, s) && i < |s.threads| && Asks(s, x) && s.threads[i].Inserting?
    requires !Locked(s, s.threads[i].call.typeId)
    ensures AllReturnedOk(Act(m, s, i, x))
  {
    hide ChunkOk, ClaimsOk, PoolOk;
    assert ThreadOk(m, s, i);
    var s' := Act(m, s, i, x);
    forall k | 0 <= k < |s'.returned|
      ensures ReturnedOk(s', s'.returned[k])
    {
      assert ReturnedOk(s, s.returned[k]);
    }
  }

  lemma InsertKeepsClaims(m: MemInfo, s: World, i: nat, x: Call)
    requires m.pageSize > 0 && WellFormed(s) && ClaimsOk(m, s)
    requires i < |s.threads| && Asks(s, x) && s.threads[i].Inserting? && !Locked(s, s.threads[i].call.typeId)
    ensures ClaimsOk(m, Act(m, s, i, x))
  {
    HoldingUpdate(m, s.threads, i, Act(m, s, i, x).threads[i]);
  }

  /** Whoever may bump the last chunk now. */
  predicate Bumper(s: World, i: nat) {
    i < |s.threads| && (s.threads[i].Bumping? || s.threads[i].Passing?)
  }

  /** A bump, without wrap-around: a thread with a chunk of its own bumps one that
      it has not bumped before, any other the one at page one. */
  lemma BumpAdvances(m: MemInfo, s: World, i: nat, x: Call)
    requires Inv(m, s) && Fits(m, s) && Asks(s, x) && Bumper(s, i)
    ensures var y, own := s.threads[i].call, s.threads[i].Bumping?;
      Asks(s, y) && y.size <= m.pageSize && HasTail(s, y.typeId) &&
      var start := Last(s.lists[y.typeId]);
      var c := s.chunks[start];
      && c.typeId == y.typeId && m.pageSize <= start <= c.nextAddr
      && (own ==> i !in c.bumpedBy) && (!own ==> start == m.pageSize)
      && Act(m, s, i, x) == s.(
           chunks := s.chunks[start := Chunk(y.typeId, c.nextAddr + y.size,
                                             if own then c.bumpedBy + {i} else c.bumpedBy,
                                             if own then c.passes else c.passes + 1)],
           threads := s.threads[i := Idle],
           returned := s.returned + [Obj(y.typeId, y.size, c.nextAddr, start)],
           used := if own then s.used + 1 else s.used)
  {
    hide Times, AllReturnedOk, ClaimsOk, PoolOk;
    var y := s.threads[i].call;
    TailBound(m, s, y.typeId);
    assert ThreadOk(m, s, i);
    var start := Last(s.lists[y.typeId]);
    SmallMod(s.chunks[start].nextAddr, TWO_56);
    SmallMod(s.chunks[start].nextAddr + y.size, TWO_64);
  }

  lemma BumpKeepsInv(m: MemInfo, s: World, i: nat, x: Call)
    requires Inv(m, s) && Fits(m, s) && Asks(s, x) && Bumper(s, i)
    ensures Inv(m, Act(m, s, i, x)) && Act(m, s, i, x).next == s.next
  {
    hide ClaimsOk, Times, AllReturnedOk, Act, PoolOk, PcOk;
    var s' := Act(m, s, i, x);
    BumpAdvances(m, s, i, x);
    assert ChunksOk(m, s') by { BumpKeepsChunks(m, s, i, x); }
    assert ThreadsOk(m, s') by { OthersOk(m, s, s', i); }
    assert AllReturnedOk(s') by { BumpKeepsReturned(m, s, i, x); }
    assert ClaimsOk(m, s') by { BumpKeepsClaims(m, s, i, x); }
  }

  lemma BumpKeepsClaims(m: MemInfo, s: World, i: nat, x: Call)
    requires m.pageSize > 0 && WellFormed(s) && ClaimsOk(m, s) && Asks(s, x) && Bumper(s, i)
    ensures ClaimsOk(m, Act(m, s, i, x))
  {
    HoldingUpdate(m, s.threads, i, Idle);
  }

  lemma BumpKeepsChunks(m: MemInfo, s: World, i: nat, x: Call)
    requires Inv(m, s) && Fits(m, s) && Asks(s, x) && Bumper(s, i)
    ensures ChunksOk(m, Act(m, s, i, x))
  {
    hide AllReturnedOk, ThreadsOk, ClaimsOk, Act, Fits, PoolOk, PcOk, Times, ChunkOk;
    var s' := Act(m, s, i, x);
    BumpAdvances(m, s, i, x);
    forall d | d in s'.chunks
      ensures ChunkOk(m, s', d)
    {
      if d == Last(s.lists[s.threads[i].call.typeId]) {
        BumpedChunkOk(m, s, i, x);
      } else {
        OtherChunkOk(m, s, s', d);
      }
    }
  }

  lemma OtherChunkOk(m: MemInfo, s: World, s': World, d: nat)
    requires m.pageSize > 0 && d in s.chunks && d in s'.chunks && s'.chunks[d] == s.chunks[d] && ChunkOk(m, s, d)
    requires s'.types == s.types && s'.next == s.next && |s'.threads| == |s.threads| && s.used <= s'.used
    ensures ChunkOk(m, s', d)
  {
  }

  lemma BumpedChunkOk(m: MemInfo, s: World, i: nat, x: Call)
    requires Inv(m, s) && Fits(m, s) && Asks(s, x) && Bumper(s, i)
    ensures HasTail(s, s.threads[i].call.typeId)
    ensures var start := Last(s.lists[s.threads[i].call.typeId]);
      start in Act(m, s, i, x).chunks && ChunkOk(m, Act(m, s, i, x), start)
  {
    hide Inv, Act, Fits, Times;
    BumpAdvances(m, s, i, x);
    var y := s.threads[i].call;
    TailBound(m, s, y.typeId);
    BumpedChunk(s.chunks[Last(s.lists[y.typeId])], i, Unit(m, s, y.typeId));
  }

  lemma BumpedChunk(c: Chunk, i: nat, size: nat)
    ensures Times(size, Bumps(c.(passes := c.passes + 1))) == Times(size, Bumps(c)) + size
    ensures i !in c.bumpedBy ==> Times(size, Bumps(c.(bumpedBy := c.bumpedBy + {i}))) == Times(size, Bumps(c)) + size
  {
    assert Times(size, Bumps(c) + 1) == Times(size, Bumps(c)) + size;
  }

  lemma BumpKeepsReturned(m: MemInfo, s: World, i: nat, x: Call)
    requires Inv(m, s) && Fits(m, s) && Asks(s, x) && Bumper(s, i)
    ensures AllReturnedOk(Act(m, s, i, x))
  {
    hide Times, ThreadsOk, ClaimsOk, Act, Fits, PoolOk, PcOk, ChunkOk;
    var s' := Act(m, s, i, x);
    BumpAdvances(m, s, i, x);
    forall k | 0 <= k < |s'.returned|
      ensures ReturnedOk(s', s'.returned[k])
    {
      if k < |s.returned| {
        assert ReturnedOk(s, s.returned[k]);
      }
    }
    forall k, l | 0 <= k < l < |s'.returned| && s'.returned[k].chunk == s'.returned[l].chunk
      ensures s'.returned[k].offset + s'.returned[k].size <= s'.returned[l].offset
    {
      assert ReturnedOk(s, s.returned[k]);
    }
  }

  lemma StepKeepsInv(m: MemInfo, s: World, i: nat, x: Call)
    requires Inv(m, s) && Fits(m, s) && i < |s.threads| && Asks(s, x)
    ensures Inv(m, Act(m, s, i, x))
  {
    hide Inv, Act, Fits;
    match s.threads[i]
    case Idle => StartsOk(m, s, i, x);
    case Testing(_, _) => TestKeepsInv(m, s, i, x);
    case Fetching(_) => FetchKeepsInv(m, s, i, x);
    case Inserting(_, _) => InsertKeepsInv(m, s, i, x);
    case Passing(_) => BumpKeepsInv(m, s, i, x);
    case Bumping(_, _) => BumpKeepsInv(m, s, i, x);
  }

  lemma {:induction false} RunKeepsInv(m: MemInfo, s: World, sched: seq<Move>)
    requires Inv(m, s) && Feasible(m, s, sched) && Playable(s, sched)
    ensures Inv(m, Play(m, s, sched))
    decreases |sched|
  {
    hide Inv, Act, Fits;
    if sched != [] {
      StepKeepsInv(m, s, sched[0].thread, sched[0].call);
      RunKeepsInv(m, Act(m, s, sched[0].thread, sched[0].call), sched[1..]);
    }
  }
}
