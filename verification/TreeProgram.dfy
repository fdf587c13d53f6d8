/** Programs on the tree in disaggregated memory, run on the compute context from the
    registration of the node type on. */
module TreeProgram {
  import opened Options
  import opened Bits
  import opened Addr
  import opened SlotWord
  import opened CacheSpec
  import opened CacheRequest
  import opened Context
  import opened Eviction
  import opened NodeLayout
  import opened BinaryTree
  import opened References
  import opened RemoteTree
  import opened DmTree
  import opened TreeRuns

  /** One insertion or search, and the answer if it is a search. No object outside the
      tree looks different. */
  method CallTree(c: ComputeContext, t: nat, root: GAddr, op: TreeOp, ghost tree: Tree<GAddr>, ghost ops: seq<TreeOp>)
    returns (root': GAddr, heard: seq<bool>, ghost tree': Tree<GAddr>)
    requires Ready(c, t) && ops != [] && op == ops[0] && Budget(Moment(c.State(), root, tree), t, ops)
    modifies c.Repr
    ensures Ready(c, t) && fresh(c.Repr - old(c.Repr))
    ensures Budget(Moment(c.State(), root', tree'), t, ops[1..])
    ensures OutsideSame(Moment(old(c.State()), root, tree), Moment(c.State(), root', tree'))
    ensures Keys(tree') == if op.Put? then Keys(tree) + {op.key} else Keys(tree)
    ensures heard == if op.Get? then [op.key in Keys(tree)] else []
  {
    hide Ready, ComputeContext.Valid, ComputeContext.State, Inv, Budget, CanInsert, CanSearch, Inserted, Searched;
    hide Keys, OutsideSame;
    ghost var x := Moment(c.State(), root, tree);
    NextCallIsServed(x, t, ops);
    root', heard, tree' := root, [], tree;
    match op
    case Put(k) =>
      ghost var n;
      root', n := InsertRemote(c, t, root, k, tree);
      tree' := After(tree, k, n);
      PutKeysGrow(x, Moment(c.State(), root', tree'), t, ops, n);
    case Get(k) =>
      var found := SearchRemote(c, t, root, k, tree);
      heard := [found != GADDR_NULL];
      GetHears(x, Moment(c.State(), root, tree), t, ops, found);
  }

  lemma PutKeysGrow(x: Moment, y: Moment, t: nat, ops: seq<TreeOp>, n: Option<GAddr>)
    requires Budget(x, t, ops) && ops != [] && ops[0].Put? && Inv(x.s) && Inv(y.s)
    requires Inserted(x.s, y.s, t, y.root, ops[0].key, x.tree, n) && y.tree == After(x.tree, ops[0].key, n)
    ensures Budget(y, t, ops[1..]) && Keys(y.tree) == Keys(x.tree) + {ops[0].key} && OutsideSame(x, y)
  {
    hide Inv, View, Rep, Distinct, Ordered, Find, Onward, SameBut, Keys;
    PutBudget(x, y, t, ops, n);
    PutTree(x, t, ops[0].key, n);
    PutOutside(x, y, t, ops[0].key, n);
  }

  lemma GetHears(x: Moment, y: Moment, t: nat, ops: seq<TreeOp>, found: GAddr)
    requires Budget(x, t, ops) && ops != [] && ops[0].Get? && Inv(x.s) && Inv(y.s)
    requires Searched(x.s, y.s, ops[0].key, x.tree, found) && y.tree == x.tree && y.root == x.root
    ensures Budget(y, t, ops[1..]) && (found != GADDR_NULL <==> ops[0].key in Keys(x.tree)) && OutsideSame(x, y)
  {
    hide Inv, View, Rep, Distinct, Ordered, Find, Onward, Keys, OutsideSame, NodeType, SlotsLeft, PagesLeft, Countable;
    GetBudget(x, y, t, ops, found);
    GetAnswer(x, y, ops[0].key, found);
    FindIff(x.tree, ops[0].key);
  }

  /** A whole program on a fresh context: it registers the node type, starts with no
      tree, and hears what a set of keys would answer. */
  method RunTree(c: ComputeContext, ops: seq<TreeOp>) returns (heard: seq<bool>)
    requires c.Valid() && c.State() == InitState(c.mem, c.remote) && Recurs(c.draws)
    requires PoolOk(c.mem) && |c.remote| == UpperBound(c.mem) - c.mem.addr && NODE_SIZE <= c.mem.pageSize
    requires |PutKeys(ops)| <= 256 && |PutKeys(ops)| <= c.mem.pageCount && 1 + |ops| < RC_LIMIT
    modifies c.Repr
    ensures heard == Heard(ops, KeySet({}, ops).1)
  {
    hide Ready, ComputeContext.Valid, ComputeContext.State, Inv, Budget, Register, InitState, PutKeys, Keys, Heard;
    ScratchBudget(c.mem, c.remote, ops);
    RegisteredFirst(c.mem, c.remote);
    var t := c.RegisterType(NODE_SIZE);
    NodesReady(c, t, ops);
    EmptyKeys();
    var root;
    ghost var tree;
    root, heard, tree := RunCalls(c, t, GADDR_NULL, ops, Leaf);
  }

  /** The calls one after the other, on whatever tree and cache there are: the cache may
      be full of objects that nobody holds, which are then evicted. The searches hear
      what a set of keys would answer, the tree holds its keys at the end, and no object
      outside the tree looks different. */
  method RunCalls(c: ComputeContext, t: nat, root: GAddr, ops: seq<TreeOp>, ghost tree: Tree<GAddr>)
    returns (root': GAddr, heard: seq<bool>, ghost tree': Tree<GAddr>)
    requires Ready(c, t) && Budget(Moment(c.State(), root, tree), t, ops)
    modifies c.Repr
    ensures Ready(c, t) && fresh(c.Repr - old(c.Repr)) && Budget(Moment(c.State(), root', tree'), t, [])
    ensures heard == Heard(ops, KeySet(Keys(tree), ops).1) && Keys(tree') == KeySet(Keys(tree), ops).0
    ensures OutsideSame(Moment(old(c.State()), root, tree), Moment(c.State(), root', tree'))
  {
    hide Ready, ComputeContext.Valid, ComputeContext.State, Inv, Budget, Keys, Heard, KeySet, OutsideSame;
    ghost var x := Moment(c.State(), root, tree);
    OutsideStart(x);
    root', heard, tree' := root, [], tree;
    var i := 0;
    assert ops[0..] == ops;
    while i < |ops|
      invariant 0 <= i <= |ops| && Ready(c, t) && fresh(c.Repr - old(c.Repr))
      invariant Budget(Moment(c.State(), root', tree'), t, ops[i..])
      invariant Heard(ops, KeySet(Keys(tree), ops).1) == heard + Heard(ops[i..], KeySet(Keys(tree'), ops[i..]).1)
      invariant KeySet(Keys(tree), ops).0 == KeySet(Keys(tree'), ops[i..]).0
      invariant OutsideSame(x, Moment(c.State(), root', tree'))
    {
      assert ops[i..][0] == ops[i] && ops[i..][1..] == ops[i + 1..];
      HeardNext(Keys(tree'), ops[i..]);
      ghost var y := Moment(c.State(), root', tree');
      var answer;
      root', answer, tree' := CallTree(c, t, root', ops[i], tree', ops[i..]);
      OutsideTwice(x, y, Moment(c.State(), root', tree'));
      heard := heard + answer;
      i := i + 1;
    }
    assert ops[i..] == [];
    HeardNothing(Keys(tree'));
  }

  lemma OutsideStart(x: Moment)
    requires Inv(x.s)
    ensures OutsideSame(x, x)
  {
    hide Inv, View;
  }

  lemma OutsideTwice(x: Moment, y: Moment, z: Moment)
    requires Inv(x.s) && Inv(y.s) && Inv(z.s) && OutsideSame(x, y) && OutsideSame(y, z)
    ensures OutsideSame(x, z)
  {
    hide Inv, View;
  }

  lemma HeardNothing(keys: set<int>)
    ensures Heard([], KeySet(keys, []).1) == [] && KeySet(keys, []).0 == keys
  {
  }

  lemma EmptyKeys()
    ensures Keys<GAddr>(Leaf) == {}
  {
  }

  lemma HeardNext(keys: set<int>, ops: seq<TreeOp>)
    requires ops != []
    ensures var keys' := if ops[0].Put? then keys + {ops[0].key} else keys;
      KeySet(keys, ops).0 == KeySet(keys', ops[1..]).0 &&
      Heard(ops, KeySet(keys, ops).1)
      == (if ops[0].Get? then [ops[0].key in keys] else []) + Heard(ops[1..], KeySet(keys', ops[1..]).1)
  {
    var keys' := if ops[0].Put? then keys + {ops[0].key} else keys;
    assert KeySet(keys, ops).1[1..] == KeySet(keys', ops[1..]).1;
  }

  lemma RegisteredFirst(mem: MemInfo, remote: seq<byte>)
    ensures Register(InitState(mem, remote), NODE_SIZE).1 == RESERVED_TYPES
  {
  }

  lemma NodesReady(c: ComputeContext, t: int, ops: seq<TreeOp>)
    requires c.Valid() && Recurs(c.draws) && t == RESERVED_TYPES
    requires Budget(Moment(c.State(), GADDR_NULL, Leaf), t, ops)
    ensures Ready(c, t)
  {
    hide Inv, Recurs;
  }
}
