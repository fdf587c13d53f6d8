/** Whole programs on the tree in disaggregated memory: every run of insertions and
    searches that its slots and pages can carry answers like the native tree. */
module TreeRuns {
  import opened Options
  import opened Bits
  import opened Addr
  import opened SlotWord
  import opened CacheSpec
  import opened CacheRequest
  import opened References
  import opened NodeLayout
  import opened BinaryTree
  import opened RemoteTree
  import opened Sets

  datatype TreeOp = Put(key: int32) | Get(key: int32)

  /** A moment of a run: the runtime, the root address and the tree that is there. */
  datatype Moment = Moment(s: State, root: GAddr, tree: Tree<GAddr>)

  /** One call, with the answer whether the key was found. Any eviction choices,
      and any address for a new node, are allowed. */
  ghost predicate Called(x: Moment, y: Moment, t: nat, op: TreeOp, found: bool)
  {
    && Inv(x.s) && Inv(y.s)
    && match op
       case Put(k) => exists n :: Inserted(x.s, y.s, t, y.root, k, x.tree, n)
                               && y.tree == After(x.tree, k, n) && found == n.None?
       case Get(k) => exists o :: Searched(x.s, y.s, k, x.tree, o)
                               && y.tree == x.tree && y.root == x.root && found == (o != GADDR_NULL)
  }

  ghost predicate Performs(x: Moment, t: nat, ops: seq<TreeOp>, found: seq<bool>, y: Moment)
    decreases |ops|
  {
    && |found| == |ops|
    && if ops == [] then y == x
       else exists z :: Called(x, z, t, ops[0], found[0]) && Performs(z, t, ops[1..], found[1..], y)
  }

  /** The native tree under the same calls. */
  function Native(tree: Tree<()>, ops: seq<TreeOp>): (Tree<()>, seq<bool>)
    decreases |ops|
  {
    if ops == [] then (tree, [])
    else
      var k := ops[0].key;
      var (last, found) := Native(if ops[0].Put? then Insert(tree, k, ()) else tree, ops[1..]);
      (last, [Find(tree, k).Some?] + found)
  }

  /** The keys that a run inserts. */
  function PutKeys(ops: seq<TreeOp>): set<int> {
    set i | 0 <= i < |ops| && ops[i].Put? :: ops[i].key
  }

  /** Nodes old and new can be referenced n times more. */
  predicate Countable(s: State, nodes: set<GAddr>, n: nat) {
    (forall o :: o in nodes ==> Refs(s, o) + n < RC_LIMIT) && 1 + n < RC_LIMIT
  }

  /** There are slots for all that is held or in the tree, and n more. */
  predicate SlotsLeft(s: State, t: nat, nodes: set<GAddr>, n: nat) {
    |Held(s, t) + nodes| + n <= 256
  }

  predicate PagesLeft(s: State, n: nat) {
    NODE_SIZE <= s.mem.pageSize && s.alloc.next + n * s.mem.pageSize <= UpperBound(s.mem)
  }

  /** There are slots for all nodes that are held, in the tree or still to be made,
      pages for those to be made, and room in the counts: no token is ever freed. */
  ghost predicate Budget(x: Moment, t: nat, ops: seq<TreeOp>) {
    var more := |PutKeys(ops) - Keys(x.tree)|;
    && Inv(x.s) && NodeType(x.s, t) && Rep(Seen(x.s), t, x.root, x.tree) && Distinct(x.tree) && Ordered(x.tree)
    && SlotsLeft(x.s, t, Nodes(x.tree), more) && Countable(x.s, Nodes(x.tree), |ops|) && PagesLeft(x.s, more)
  }

  /** What the methods ask for before a call. */
  ghost predicate Served(x: Moment, t: nat, op: TreeOp) {
    match op
    case Put(k) => CanInsert(x.s, t, x.root, k, x.tree)
    case Get(k) => CanSearch(x.s, t, x.root, k, x.tree)
  }

  /** With a budget the next call can be made. */
  lemma NextCallIsServed(x: Moment, t: nat, ops: seq<TreeOp>)
    requires Budget(x, t, ops) && ops != []
    ensures Served(x, t, ops[0])
  {
    hide Inv, Refs, Rep, Distinct, Ordered, Held, Path, Find, View, NodeType, Nodes, Keys;
    var k := ops[0].key;
    var path := Path(x.tree, k);
    PathIsInside(x.tree, k);
    FindIff(x.tree, k);
    SubsetSize(Held(x.s, t) + path, Held(x.s, t) + Nodes(x.tree));
    if ops[0].Put? && Find(x.tree, k).None? {
      assert k in PutKeys(ops);
      var missing := PutKeys(ops) - Keys(x.tree);
      SubsetSize({k}, missing);
      MulMonotone(x.s.mem.pageSize, 1, |missing|);
    }
  }

  /** The insertion leaves slots, pages and counts for the rest. */
  lemma PutBudget(x: Moment, y: Moment, t: nat, ops: seq<TreeOp>, n: Option<GAddr>)
    requires Budget(x, t, ops) && ops != [] && ops[0].Put? && Inv(y.s)
    requires Inserted(x.s, y.s, t, y.root, ops[0].key, x.tree, n) && y.tree == After(x.tree, ops[0].key, n)
    ensures Budget(y, t, ops[1..])
  {
    hide Inv, Refs, Rep, Distinct, Ordered, Held, Path, Find, View, NodeType, Nodes, Keys, Onward, Insert, SameBut;
    hide PutKeys, PagesLeft, Countable, After, ToSet, SlotsLeft, Inserted;
    var k := ops[0].key;
    InsertedParts(x.s, y.s, t, y.root, k, x.tree, n);
    OnwardType(x.s, y.s, Path(x.tree, k) + ToSet(n), t);
    PutTree(x, t, k, n);
    PutMore(x, y, t, ops, n);
    PagesSplit(x.s, y.s, |PutKeys(ops) - Keys(x.tree)|, |PutKeys(ops[1..]) - Keys(y.tree)|, n);
    PutCounts(x, y, t, k, n, |ops|);
    SlotsSplit(x.s, y.s, t, Path(x.tree, k), Nodes(x.tree), n,
               |PutKeys(ops) - Keys(x.tree)|, |PutKeys(ops[1..]) - Keys(y.tree)|);
  }

  lemma SlotsSplit(s: State, s': State, t: nat, path: set<GAddr>, nodes: set<GAddr>, n: Option<GAddr>,
                   more: nat, rest: nat)
    requires Held(s', t) == Held(s, t) + path + ToSet(n) && path <= nodes && SlotsLeft(s, t, nodes, more)
    requires more == rest + if n.Some? then 1 else 0
    ensures SlotsLeft(s', t, nodes + ToSet(n), rest)
  {
    hide Held;
    var held := Held(s, t);
    assert Held(s', t) + (nodes + ToSet(n)) == held + nodes + ToSet(n);
    if n.Some? {
      assert |held + nodes + {n.value}| <= |held + nodes| + 1;
    } else {
      assert held + nodes + ToSet(n) == held + nodes;
    }
  }

  lemma PagesSplit(s: State, s': State, more: nat, rest: nat, n: Option<GAddr>)
    requires PagesLeft(s, more) && s'.mem == s.mem && more == rest + if n.Some? then 1 else 0
    requires s'.alloc.next == s.alloc.next + if n.Some? then s.mem.pageSize else 0
    ensures PagesLeft(s', rest)
  {
    var p := s.mem.pageSize;
    assert (rest + 1) * p == rest * p + p;
  }

  lemma CountsSplit(s: State, s': State, nodes: set<GAddr>, made: Option<GAddr>, n: nat)
    requires Countable(s, nodes, n) && n > 0
    requires forall o :: Refs(s', o) <= Refs(s, o) + 1
    requires made.Some? ==> Refs(s', made.value) <= 1
    ensures Countable(s', nodes + ToSet(made), n - 1)
  {
    hide Refs;
    forall o | o in nodes + ToSet(made)
      ensures Refs(s', o) + (n - 1) < RC_LIMIT
    {
      assert Refs(s', o) <= Refs(s, o) + 1;
    }
  }

  lemma SamePages(s: State, s': State, n: nat)
    requires s'.mem == s.mem && s'.alloc == s.alloc
    ensures PagesLeft(s', n) <==> PagesLeft(s, n)
  {
  }

  /** The tree grows by exactly the key and the node. */
  lemma PutTree(x: Moment, t: nat, k: int, n: Option<GAddr>)
    requires Inv(x.s) && Rep(Seen(x.s), t, x.root, x.tree) && Distinct(x.tree) && Ordered(x.tree)
    requires n.Some? <==> Find(x.tree, k).None?
    requires n.Some? ==> n.value !in x.s.objs
    ensures var tree := After(x.tree, k, n);
      && Distinct(tree) && Ordered(tree) && Nodes(tree) == Nodes(x.tree) + ToSet(n) && Keys(tree) == Keys(x.tree) + {k}
    ensures n.Some? <==> k !in Keys(x.tree)
  {
    hide Inv, Rep, View;
    NodesAreObjects(Seen(x.s), t, x.root, x.tree);
    FindIff(x.tree, k);
    if n.Some? {
      InsertKeys(x.tree, k, n.value);
      InsertNodes(x.tree, k, n.value);
    }
  }

  /** One token more on the path and on the new node. */
  lemma PutCounts(x: Moment, y: Moment, t: nat, k: int, n: Option<GAddr>, m: nat)
    requires Inv(x.s) && Onward(x.s, y.s, Path(x.tree, k) + ToSet(n))
    requires Rep(Seen(x.s), t, x.root, x.tree)
    requires n.Some? ==> n.value !in x.s.objs && n.value.typeId == t
    ensures Held(y.s, t) == Held(x.s, t) + Path(x.tree, k) + ToSet(n) && Path(x.tree, k) <= Nodes(x.tree)
    ensures Countable(x.s, Nodes(x.tree), m) && m > 0 ==> Countable(y.s, Nodes(x.tree) + ToSet(n), m - 1)
  {
    hide Inv, Rep, View, Refs, Held, Path, Onward, Countable;
    NodesAreObjects(Seen(x.s), t, x.root, x.tree);
    PathIsInside(x.tree, k);
    OnwardHeld(x.s, y.s, Path(x.tree, k) + ToSet(n), t);
    forall o
      ensures Refs(y.s, o) <= Refs(x.s, o) + 1
    {
      OnwardRefs(x.s, y.s, Path(x.tree, k) + ToSet(n), o);
    }
    if n.Some? {
      OnwardRefs(x.s, y.s, Path(x.tree, k) + ToSet(n), n.value);
      UncachedHasNoRefs(x.s, n.value);
    }
    if Countable(x.s, Nodes(x.tree), m) && m > 0 {
      CountsSplit(x.s, y.s, Nodes(x.tree), n, m);
    }
  }

  /** A new key is one fewer still to be made. */
  lemma PutMore(x: Moment, y: Moment, t: nat, ops: seq<TreeOp>, n: Option<GAddr>)
    requires ops != [] && ops[0].Put? && Keys(y.tree) == Keys(x.tree) + {ops[0].key}
    requires n.Some? <==> ops[0].key !in Keys(x.tree)
    ensures |PutKeys(ops) - Keys(x.tree)| == |PutKeys(ops[1..]) - Keys(y.tree)| + if n.Some? then 1 else 0
  {
    var k := ops[0].key;
    hide PutKeys, Keys;
    PutKeysSplit(ops);
    var a, b := PutKeys(ops) - Keys(x.tree), PutKeys(ops[1..]) - Keys(y.tree);
    assert a == b + if n.Some? then {k} else {};
    assert k !in b;
  }

  lemma PutKeysSplit(ops: seq<TreeOp>)
    requires ops != []
    ensures PutKeys(ops) == PutKeys(ops[1..]) + if ops[0].Put? then {ops[0].key} else {}
  {
    forall k | k in PutKeys(ops)
      ensures k in PutKeys(ops[1..]) + if ops[0].Put? then {ops[0].key} else {}
    {
      var i :| 0 <= i < |ops| && ops[i].Put? && ops[i].key == k;
      if i > 0 {
        assert ops[1..][i - 1] == ops[i];
      }
    }
    forall k | k in PutKeys(ops[1..])
      ensures k in PutKeys(ops)
    {
      var i :| 0 <= i < |ops[1..]| && ops[1..][i].Put? && ops[1..][i].key == k;
      assert ops[i + 1] == ops[1..][i];
    }
    if ops[0].Put? {
      assert ops[0].key in PutKeys(ops);
    }
  }

  lemma GetBudget(x: Moment, y: Moment, t: nat, ops: seq<TreeOp>, o: GAddr)
    requires Budget(x, t, ops) && ops != [] && ops[0].Get? && Inv(y.s)
    requires Searched(x.s, y.s, ops[0].key, x.tree, o) && y.tree == x.tree && y.root == x.root
    ensures Budget(y, t, ops[1..])
  {
    hide Inv, Refs, Rep, Distinct, Ordered, Held, Path, Find, View, NodeType, Nodes, Keys, Onward, PutKeys;
    hide Countable, PagesLeft;
    var k := ops[0].key;
    assert Path(x.tree, k) + ToSet<GAddr>(None) == Path(x.tree, k);
    PutCounts(x, y, t, k, None, |ops|);
    assert Nodes(x.tree) + ToSet<GAddr>(None) == Nodes(x.tree);
    PutKeysSplit(ops);
    OnwardType(x.s, y.s, Path(x.tree, k), t);
    SamePages(x.s, y.s, |PutKeys(ops) - Keys(x.tree)|);
    assert Held(y.s, t) + Nodes(y.tree) == Held(x.s, t) + Nodes(x.tree);
  }

  /** Objects outside the tree look as before and stay outside it. */
  ghost predicate OutsideSame(x: Moment, y: Moment)
    requires Inv(x.s) && Inv(y.s)
  {
    forall o :: o in x.s.objs && o !in Nodes(x.tree) ==>
      o in y.s.objs && o !in Nodes(y.tree) && Seen(y.s)[o] == Seen(x.s)[o]
  }

  /** One call answers like the native tree, and the trees stay alike. */
  lemma CallIsNative(x: Moment, y: Moment, t: nat, ops: seq<TreeOp>, found: bool)
    requires Budget(x, t, ops) && ops != [] && Called(x, y, t, ops[0], found)
    ensures Budget(y, t, ops[1..]) && OutsideSame(x, y)
    ensures found == Find(Shape(x.tree), ops[0].key).Some?
    ensures Shape(y.tree) == if ops[0].Put? then Insert(Shape(x.tree), ops[0].key, ()) else Shape(x.tree)
  {
    hide Inv, Budget, Inserted, Searched, Shape, Insert, Find, Nodes, View, After;
    var k := ops[0].key;
    BudgetParts(x, t, ops);
    if ops[0].Put? {
      var n :| Inserted(x.s, y.s, t, y.root, k, x.tree, n) && y.tree == After(x.tree, k, n) && found == n.None?;
      PutBudget(x, y, t, ops, n);
      PutOutside(x, y, t, k, n);
      PutShape(x.tree, k, n);
    } else {
      var o :| Searched(x.s, y.s, k, x.tree, o) && y.tree == x.tree && y.root == x.root && found == (o != GADDR_NULL);
      GetBudget(x, y, t, ops, o);
      GetAnswer(x, y, k, o);
    }
  }

  lemma BudgetParts(x: Moment, t: nat, ops: seq<TreeOp>)
    requires Budget(x, t, ops)
    ensures Inv(x.s) && Rep(Seen(x.s), t, x.root, x.tree) && Distinct(x.tree) && Ordered(x.tree)
  {
  }

  lemma PutShape(tree: Tree<GAddr>, k: int, n: Option<GAddr>)
    requires n.Some? <==> Find(tree, k).None?
    ensures Shape(After(tree, k, n)) == Insert(Shape(tree), k, ())
    ensures n.None? <==> Find(Shape(tree), k).Some?
  {
    hide Shape, Insert, Find;
    var m := if n.Some? then n.value else GADDR_NULL;
    InsertShape(tree, k, m);
    if n.None? {
      InsertNothing(tree, k, m);
    }
  }

  lemma PutOutside(x: Moment, y: Moment, t: nat, k: int, n: Option<GAddr>)
    requires Inv(x.s) && Inv(y.s) && Inserted(x.s, y.s, t, y.root, k, x.tree, n) && y.tree == After(x.tree, k, n)
    ensures OutsideSame(x, y) && (n.Some? <==> Find(x.tree, k).None?)
  {
    hide Inv, View, Onward, Rep, Find, Insert;
    PathIsInside(x.tree, k);
    AfterNodes(x.tree, k, n);
  }

  lemma GetAnswer(x: Moment, y: Moment, k: int, o: GAddr)
    requires Inv(x.s) && Inv(y.s) && Searched(x.s, y.s, k, x.tree, o) && y.tree == x.tree
    ensures OutsideSame(x, y) && ((o != GADDR_NULL) <==> Find(Shape(x.tree), k).Some?)
  {
    hide Inv, View, Onward, Find, Shape;
    InsertShape(x.tree, k, o);
  }

  /** Every run within its budget answers each call as the native tree does, ends
      with a tree of the same shape, and changes no object outside the tree. What
      is left of the budget lets the rest of the program be served. */
  lemma {:induction false} RunIsNative(x: Moment, t: nat, ops: seq<TreeOp>, rest: seq<TreeOp>, found: seq<bool>,
                                       y: Moment)
    requires Budget(x, t, ops + rest) && Performs(x, t, ops, found, y)
    ensures Budget(y, t, rest) && OutsideSame(x, y)
    ensures (Shape(y.tree), found) == Native(Shape(x.tree), ops)
    decreases |ops|
  {
    hide Inv, Budget, Shape, Insert, Find, Nodes, View, Called;
    BudgetParts(x, t, ops + rest);
    if ops == [] {
      assert found == [] && ops + rest == rest;
    } else {
      var z :| Called(x, z, t, ops[0], found[0]) && Performs(z, t, ops[1..], found[1..], y);
      CallIsNative(x, z, t, ops + rest, found[0]);
      assert (ops + rest)[1..] == ops[1..] + rest;
      RunIsNative(z, t, ops[1..], rest, found[1..], y);
      assert found == [found[0]] + found[1..];
    }
  }

  // Programs from scratch

  /** A set of keys under the same calls, with the answers it gives. */
  function KeySet(keys: set<int>, ops: seq<TreeOp>): (r: (set<int>, seq<bool>))
    ensures |r.1| == |ops|
    decreases |ops|
  {
    if ops == [] then (keys, [])
    else
      var k := ops[0].key;
      var (last, found) := KeySet(if ops[0].Put? then keys + {k} else keys, ops[1..]);
      (last, [k in keys] + found)
  }

  /** The answers to the searches, which are all that a client hears of a run. */
  function Heard(ops: seq<TreeOp>, found: seq<bool>): seq<bool>
    requires |found| == |ops|
    decreases |ops|
  {
    if ops == [] then [] else (if ops[0].Get? then [found[0]] else []) + Heard(ops[1..], found[1..])
  }

  /** The native tree answers like a set and holds its keys in order. */
  lemma {:induction false} NativeIsKeySet(tree: Tree<()>, ops: seq<TreeOp>)
    requires Ordered(tree)
    ensures Native(tree, ops).1 == KeySet(Keys(tree), ops).1
    ensures Keys(Native(tree, ops).0) == KeySet(Keys(tree), ops).0 && Ordered(Native(tree, ops).0)
    decreases |ops|
  {
    if ops != [] {
      var k := ops[0].key;
      FindIff(tree, k);
      InsertKeys(tree, k, ());
      NativeIsKeySet(if ops[0].Put? then Insert(tree, k, ()) else tree, ops[1..]);
    }
  }

  /** The runtime after the handshake and the registration of the node type, and
      no tree yet. */
  function Scratch(mem: MemInfo, remote: seq<byte>): Moment {
    Moment(Register(InitState(mem, remote), NODE_SIZE).0, GADDR_NULL, Leaf)
  }

  lemma ScratchBudget(mem: MemInfo, remote: seq<byte>, ops: seq<TreeOp>)
    requires PoolOk(mem) && |remote| == UpperBound(mem) - mem.addr && NODE_SIZE <= mem.pageSize
    requires |PutKeys(ops)| <= 256 && |PutKeys(ops)| <= mem.pageCount && 1 + |ops| < RC_LIMIT
    ensures Budget(Scratch(mem, remote), RESERVED_TYPES, ops)
  {
    hide Inv, View;
    InitInv(mem, remote);
    RegisterKeeps(InitState(mem, remote), NODE_SIZE);
    var x := Scratch(mem, remote);
    assert Held(x.s, RESERVED_TYPES) + Nodes(x.tree) == {};
    assert PutKeys(ops) - Keys(x.tree) == PutKeys(ops);
    MulMonotone(mem.pageSize, |PutKeys(ops)|, mem.pageCount);
  }

  /** A program that starts from nothing and inserts no more different keys than
      there are slots and pages gets, at every point of it, the answers that a set
      would give, and its next call can be made. */
  lemma ProgramIsKeySet(mem: MemInfo, remote: seq<byte>, ops: seq<TreeOp>, rest: seq<TreeOp>, found: seq<bool>,
                        y: Moment)
    requires PoolOk(mem) && |remote| == UpperBound(mem) - mem.addr && NODE_SIZE <= mem.pageSize
    requires |PutKeys(ops + rest)| <= 256 && |PutKeys(ops + rest)| <= mem.pageCount
    requires 1 + |ops + rest| < RC_LIMIT
    requires Performs(Scratch(mem, remote), RESERVED_TYPES, ops, found, y)
    ensures found == KeySet({}, ops).1 && Keys(y.tree) == KeySet({}, ops).0
    ensures rest != [] ==> Served(y, RESERVED_TYPES, rest[0])
  {
    hide Budget, Performs, Native, Keys, Scratch, Shape, Served;
    ScratchBudget(mem, remote, ops + rest);
    RunIsNative(Scratch(mem, remote), RESERVED_TYPES, ops, rest, found, y);
    ScratchIsLeaf(mem, remote);
    NativeIsKeySet(Leaf, ops);
    ShapeAlike(y.tree);
    if rest != [] {
      NextCallIsServed(y, RESERVED_TYPES, rest);
    }
  }

  lemma ScratchIsLeaf(mem: MemInfo, remote: seq<byte>)
    ensures Shape(Scratch(mem, remote).tree) == Leaf && Keys<()>(Leaf) == {}
  {
  }
}
