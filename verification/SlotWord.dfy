/** The packed 32-bit word of a cache slot, `[valid:1|io:1|rc:30]`, and the
    record it stands for. */
module SlotWord {
  import opened Bits

  const FLAG_VALID: nat := 0x8000_0000
  const FLAG_IO: nat := 0x4000_0000
  const RC_LIMIT: nat := 0x4000_0000

  type Word = w: nat | w < TWO_32

  datatype SlotState = SlotState(valid: bool, io: bool, rc: nat)

  function Decode(w: Word): (s: SlotState)
    ensures s.rc < RC_LIMIT
    ensures w == (if s.valid then FLAG_VALID else 0) + (if s.io then FLAG_IO else 0) + s.rc
  {
    hide And;
    FlagMasks(w);
    SlotState(And(w, FLAG_VALID) != 0, And(w, FLAG_IO) != 0, And(w, FLAG_IO - 1))
  }

  function Encode(s: SlotState): Word
    requires s.rc < RC_LIMIT
  {
    (if s.valid then FLAG_VALID else 0) + (if s.io then FLAG_IO else 0) + s.rc
  }

  predicate IsValid(w: Word) { Decode(w).valid }

  predicate InIo(w: Word) { Decode(w).io }

  function Rc(w: Word): nat { Decode(w).rc }

  /** atomic_fetch_add(word, 1) and atomic_fetch_add(word, -1): 32-bit wrap-around. */
  function Increment(w: Word): Word { (w + 1) % TWO_32 }

  function Decrement(w: Word): Word { (w + TWO_32 - 1) % TWO_32 }

  /** atomic_compare_exchange_strong(word, FLAG_VALID, 0). */
  function CompareExchangeValid(w: Word): (r: (bool, Word)) {
    if w == FLAG_VALID then (true, 0) else (false, w)
  }

  lemma FlagsArePowers()
    ensures Pow2(30) == FLAG_IO && Pow2(31) == FLAG_VALID
  {
    assert Pow2(8) == 256 && Pow2(7) == 128 && Pow2(6) == 64;
    Pow2Add(8, 8);
    Pow2Add(16, 8);
    Pow2Add(24, 7);
    Pow2Add(24, 6);
  }

  lemma FlagMasks(w: Word)
    ensures And(w, FLAG_VALID) == if w >= FLAG_VALID then FLAG_VALID else 0
    ensures And(w, FLAG_IO) == if w % FLAG_VALID >= FLAG_IO then FLAG_IO else 0
    ensures And(w, FLAG_IO - 1) == w % FLAG_IO
  {
    hide And, Pow2;
    FlagsArePowers();
    AndOneBit(w, 31);
    AndOneBit(w, 30);
    AndLowMask(w, 30);
  }

  /** Bit 31 is the valid flag, bit 30 the I/O flag, and the rest is the count. */
  lemma WordFields(w: Word)
    ensures IsValid(w) <==> w / 0x8000_0000 == 1
    ensures InIo(w) <==> w / 0x4000_0000 % 2 == 1
    ensures Rc(w) == w % 0x4000_0000
  {
    hide And;
    FlagMasks(w);
  }

  /** Packing and unpacking are inverse to each other. */
  lemma PackedRoundTrip(s: SlotState, w: Word)
    requires s.rc < RC_LIMIT
    ensures Decode(Encode(s)) == s
    ensures Encode(Decode(w)) == w
  {
    var d := Decode(Encode(s));
  }

  /** Taking a reference changes the count by one and no flag exactly when the
      count has room; with 2^30 - 1 outstanding references the carry reaches a flag. */
  lemma IncrementRefines(w: Word)
    ensures Decode(Increment(w)) == Decode(w).(rc := Rc(w) + 1) <==> Rc(w) + 1 < RC_LIMIT
  {
    hide And;
    var s, d := Decode(w), Decode(Increment(w));
    if s.rc + 1 < RC_LIMIT {
      PackedRoundTrip(s.(rc := s.rc + 1), w);
    }
  }

  /** Dropping a reference is exact if and only if one is held. */
  lemma DecrementRefines(w: Word)
    ensures Rc(w) > 0 <==> Rc(Decrement(w)) == Rc(w) - 1
    ensures Rc(w) > 0 ==> Decode(Decrement(w)) == Decode(w).(rc := Rc(w) - 1)
  {
    hide And;
    var s, d := Decode(w), Decode(Decrement(w));
    if s.rc > 0 {
      PackedRoundTrip(s.(rc := s.rc - 1), w);
    }
  }

  /** The compare-exchange of the evictor takes exactly the valid, idle and
      unreferenced slots, and leaves an all-clear word behind. */
  lemma CompareExchangeRefines(w: Word)
    ensures CompareExchangeValid(w).0 <==> Decode(w) == SlotState(true, false, 0)
    ensures CompareExchangeValid(w).0 ==> Decode(CompareExchangeValid(w).1) == SlotState(false, false, 0)
    ensures !CompareExchangeValid(w).0 ==> CompareExchangeValid(w).1 == w
  {
    PackedRoundTrip(SlotState(false, false, 0), w);
  }

  /** The words a slot can hold between two calls: all clear, or valid with no
      transfer under way. */
  predicate Quiescent(w: Word) {
    w == 0 || (IsValid(w) && !InIo(w))
  }

  lemma ClearWord()
    ensures Quiescent(0) && Quiescent(FLAG_VALID + 1)
    ensures !IsValid(0) && Rc(0) == 0
    ensures IsValid(FLAG_VALID + 1) && !InIo(FLAG_VALID + 1) && Rc(FLAG_VALID + 1) == 1
  {
    PackedRoundTrip(SlotState(false, false, 0), 0);
    PackedRoundTrip(SlotState(true, false, 1), 0);
  }

  lemma EvictableWord(w: Word)
    requires CompareExchangeValid(w).0
    ensures IsValid(w) && Rc(w) == 0
  {
    CompareExchangeRefines(w);
  }

  /** Pinning, unpinning and the evictor's compare-exchange between calls. */
  lemma QuiescentSteps(w: Word)
    requires Quiescent(w) && IsValid(w)
    ensures Rc(w) + 1 < RC_LIMIT ==>
      Quiescent(Increment(w)) && IsValid(Increment(w)) && Rc(Increment(w)) == Rc(w) + 1
    ensures Rc(w) > 0 ==>
      Quiescent(Decrement(w)) && IsValid(Decrement(w)) && Rc(Decrement(w)) == Rc(w) - 1
    ensures CompareExchangeValid(w).0 <==> Rc(w) == 0
  {
    hide Decode;
    ClearWord();
    IncrementRefines(w);
    DecrementRefines(w);
    CompareExchangeRefines(w);
  }

  /** Dropping a reference that nobody holds borrows from the flags: the slot is then
      invalid and in I/O, with 2^30 - 1 references. */
  lemma BorrowedFlags()
    ensures Decode(Decrement(FLAG_VALID)) == SlotState(false, true, RC_LIMIT - 1)
    ensures !Quiescent(Decrement(FLAG_VALID))
  {
    hide Decode;
    PackedRoundTrip(SlotState(false, true, RC_LIMIT - 1), Decrement(FLAG_VALID));
    assert Decrement(FLAG_VALID) == Encode(SlotState(false, true, RC_LIMIT - 1));
  }

  /** A run of increments and decrements of one word. */
  function RunWord(w: Word, ops: seq<bool>): Word
    decreases |ops|
  {
    if ops == [] then w
    else RunWord(if ops[0] then Increment(w) else Decrement(w), ops[1..])
  }

  function Balance(ops: seq<bool>): int {
    if ops == [] then 0 else (if ops[0] then 1 else -1) + Balance(ops[1..])
  }

  /** Over a whole run that starts with a word of n references and in which the
      count stays between 0 and 2^30 - 1, the flags never move and the count is
      the number of references taken minus the number dropped. */
  lemma {:induction false} RunRefines(w: Word, ops: seq<bool>)
    requires forall k :: 0 <= k <= |ops| ==> 0 <= Rc(w) + Balance(ops[..k]) < RC_LIMIT
    ensures Rc(w) + Balance(ops) >= 0
    ensures Decode(RunWord(w, ops)) == Decode(w).(rc := Rc(w) + Balance(ops))
    decreases |ops|
  {
    if ops != [] {
      var w' := if ops[0] then Increment(w) else Decrement(w);
      assert ops[..1] == [ops[0]] && Balance(ops[..1][1..]) == 0;
      assert 0 <= Rc(w) + Balance(ops[..1]) < RC_LIMIT;
      IncrementRefines(w);
      DecrementRefines(w);
      forall k | 0 <= k <= |ops[1..]|
        ensures 0 <= Rc(w') + Balance(ops[1..][..k]) < RC_LIMIT
      {
        assert ops[..k + 1][1..] == ops[1..][..k];
        assert 0 <= Rc(w) + Balance(ops[..k + 1]) < RC_LIMIT;
      }
      RunRefines(w', ops[1..]);
    }
  }
}
