/** A tree in the objects that the program sees, and what one level of insertion
    and search means there. */
module RemoteTree {
  import opened Options
  import opened Bits
  import opened Addr
  import opened SlotWord
  import opened CacheSpec
  import opened References
  import opened NodeLayout
  import opened BinaryTree
  import opened Sets

  type Memory = map<GAddr, seq<byte>>

  predicate IsNode(v: Memory, t: nat, o: GAddr) {
    o in v && o.typeId == t && |v[o]| == NODE_SIZE
  }

  /** The objects reachable from an address are laid out as a tree. */
  predicate Rep(v: Memory, t: nat, a: GAddr, tree: Tree<GAddr>)
    decreases tree
  {
    match tree
    case Leaf => a == GADDR_NULL
    case Node(o, k, l, r) =>
      && a == o && a != GADDR_NULL && IsNode(v, t, o) && KeyOf(v[o]) == k
      && Rep(v, t, LinkOf(v[o], LEFT_AT), l) && Rep(v, t, LinkOf(v[o], RIGHT_AT), r)
  }

  /** Only the bytes of its nodes matter to a tree. */
  lemma {:induction false} RepFrame(v: Memory, v': Memory, t: nat, a: GAddr, tree: Tree<GAddr>)
    requires Rep(v, t, a, tree) && forall o :: o in Nodes(tree) && o in v ==> o in v' && v'[o] == v[o]
    ensures Rep(v', t, a, tree)
    decreases tree
  {
    match tree
    case Leaf =>
    case Node(o, k, l, r) =>
      RepFrame(v, v', t, LinkOf(v[o], LEFT_AT), l);
      RepFrame(v, v', t, LinkOf(v[o], RIGHT_AT), r);
  }

  /** The root of a tree, byte by byte: its key at byte 0, and at bytes 8 and 16 the
      addresses of its subtrees. */
  lemma RootBytes(v: Memory, t: nat, a: GAddr, tree: Tree<GAddr>)
    requires Rep(v, t, a, tree) && tree.Node?
    ensures a in v && -0x8000_0000 <= tree.key < 0x8000_0000 && HasKey(v[a], tree.key)
    ensures exists l, r ::
      && Representable(l) && HasLink(v[a], 8, l) && Rep(v, t, l, tree.left)
      && Representable(r) && HasLink(v[a], 16, r) && Rep(v, t, r, tree.right)
  {
    hide KeyOf, LinkOf, HasKey, HasLink;
    var l, r := LinkOf(v[a], LEFT_AT), LinkOf(v[a], RIGHT_AT);
    NodeBytes(v[a], KeyOf(v[a]), l);
    NodeBytes(v[a], KeyOf(v[a]), r);
  }

  /** The node that is found has the key in its first four bytes. */
  lemma {:induction false} FoundHasKey(v: Memory, t: nat, a: GAddr, tree: Tree<GAddr>, key: int32)
    requires Rep(v, t, a, tree) && Find(tree, key).Some?
    ensures Find(tree, key).value in v && HasKey(v[Find(tree, key).value], key)
    decreases tree
  {
    hide HasKey, LinkOf, KeyOf;
    if key == tree.key {
      NodeBytes(v[a], key, GADDR_NULL);
    } else {
      FoundHasKey(v, t, LinkOf(v[a], Going(tree, key)), Below(tree, key), key);
    }
  }

  lemma {:induction false} NodesAreObjects(v: Memory, t: nat, a: GAddr, tree: Tree<GAddr>)
    requires Rep(v, t, a, tree)
    ensures forall o :: o in Nodes(tree) ==> o in v && o.typeId == t
    decreases tree
  {
    match tree
    case Leaf =>
    case Node(o, k, l, r) =>
      NodesAreObjects(v, t, LinkOf(v[o], LEFT_AT), l);
      NodesAreObjects(v, t, LinkOf(v[o], RIGHT_AT), r);
  }

  /** The link that the search for a key follows, and the subtree below it. */
  function Going(tree: Tree<GAddr>, key: int): nat
    requires tree.Node?
  {
    if key < tree.key then LEFT_AT else RIGHT_AT
  }

  function Below(tree: Tree<GAddr>, key: int): Tree<GAddr>
    requires tree.Node?
  {
    if key < tree.key then tree.left else tree.right
  }

  function Other(tree: Tree<GAddr>, key: int): Tree<GAddr>
    requires tree.Node?
  {
    if key < tree.key then tree.right else tree.left
  }

  /** One level. */
  lemma Level(v: Memory, t: nat, a: GAddr, tree: Tree<GAddr>, key: int)
    requires Rep(v, t, a, tree) && Distinct(tree) && tree.Node?
    ensures a == tree.node && a != GADDR_NULL && IsNode(v, t, a) && KeyOf(v[a]) == tree.key
    ensures a !in Nodes(Below(tree, key)) && a !in Nodes(Other(tree, key))
    ensures Distinct(Below(tree, key)) && Nodes(Below(tree, key)) !! Nodes(Other(tree, key))
    ensures Nodes(tree) == {a} + Nodes(Below(tree, key)) + Nodes(Other(tree, key))
    ensures IsLink(Going(tree, key)) && IsLink(LEFT_AT + RIGHT_AT - Going(tree, key))
    ensures Rep(v, t, LinkOf(v[a], Going(tree, key)), Below(tree, key))
    ensures Rep(v, t, LinkOf(v[a], LEFT_AT + RIGHT_AT - Going(tree, key)), Other(tree, key))
    ensures key != tree.key ==>
      && Path(tree, key) == {a} + Path(Below(tree, key), key) && Find(tree, key) == Find(Below(tree, key), key)
      && Parent(tree, key) == if Below(tree, key).Leaf? then Some(a) else Parent(Below(tree, key), key)
    ensures key == tree.key ==> Path(tree, key) == {a} && Find(tree, key) == Some(a) && Parent(tree, key) == None
    ensures Path(Below(tree, key), key) <= Nodes(Below(tree, key))
  {
    PathIsInside(Below(tree, key), key);
  }

  ghost predicate NodeType(s: State, t: nat) {
    HasBlock(s, t) && SizeOf(s, t) == NODE_SIZE
  }

  /** What the program sees, in a state that keeps the invariant. */
  ghost function Seen(s: State): Memory
    requires Inv(s)
    ensures Seen(s).Keys == s.objs
  {
    View(s)
  }

  /** A pool with a page left for one more node. */
  predicate PageLeft(s: State) {
    NODE_SIZE <= s.mem.pageSize && s.alloc.next < UpperBound(s.mem)
  }

  /** The references to the nodes on a path can be counted once more, and no more
      objects are held with them than there are slots. */
  ghost predicate Room(s: State, t: nat, path: set<GAddr>, more: nat) {
    && |Held(s, t) + path| + more <= 256
    && (forall o :: o in path ==> Refs(s, o) + 1 < RC_LIMIT)
  }

  ghost predicate CanSearch(s: State, t: nat, a: GAddr, key: int, tree: Tree<GAddr>) {
    Inv(s) && NodeType(s, t) && Rep(Seen(s), t, a, tree) && Distinct(tree) && Room(s, t, Path(tree, key), 0)
  }

  /** What insertion needs: a node can be made if the key is not there yet. */
  ghost predicate CanInsert(s: State, t: nat, a: GAddr, key: int, tree: Tree<GAddr>) {
    && Inv(s) && NodeType(s, t) && Rep(Seen(s), t, a, tree) && Distinct(tree)
    && Room(s, t, Path(tree, key), if Find(tree, key).None? then 1 else 0)
    && (Find(tree, key).None? ==> PageLeft(s))
  }

  function After(tree: Tree<GAddr>, key: int, n: Option<GAddr>): Tree<GAddr> {
    if n.Some? then Insert(tree, key, n.value) else tree
  }

  /** All objects but one, if any, look the same. */
  ghost predicate SameBut(v: Memory, v': Memory, changed: Option<GAddr>) {
    forall o :: o in v && changed != Some(o) ==> o in v' && v'[o] == v[o]
  }

  /** What insertion does. A node n is made exactly if the key was not there. The
      tree is then the one that insertion computes; no object but the parent of the
      new node looks different; and one token is left on every node visited. */
  ghost predicate Inserted(s: State, s': State, t: nat, a': GAddr, key: int, tree: Tree<GAddr>, n: Option<GAddr>)
    requires Inv(s) && Inv(s')
  {
    && NodeType(s', t) && (n.Some? <==> Find(tree, key).None?)
    && (n.Some? ==> n.value !in s.objs && n.value.typeId == t)
    && s'.objs == s.objs + ToSet(n)
    && s'.alloc.next == s.alloc.next + (if n.Some? then s.mem.pageSize else 0)
    && Rep(Seen(s'), t, a', After(tree, key, n))
    && SameBut(Seen(s), Seen(s'), Parent(tree, key))
    && Onward(s, s', Path(tree, key) + ToSet(n))
  }

  /** The node was requested, and perhaps marked dirty: the call below can be made. */
  ghost predicate Visited(s: State, s': State, a: GAddr)
    requires Inv(s)
  {
    && Inv(s') && Onward(s, s', {a}) && Seen(s') == Seen(s)
    && s'.alloc == s.alloc && s'.objs == s.objs
  }

  lemma RoomBelow(s: State, s': State, t: nat, a: GAddr, path: set<GAddr>, more: nat)
    requires Room(s, t, {a} + path, more) && Onward(s, s', {a}) && a.typeId == t && a !in path
    ensures Room(s', t, path, more)
  {
    hide Onward, Refs, Held;
    OnwardHeld(s, s', {a}, t);
    assert Held(s, t) + ({a} + path) == Held(s', t) + path;
    forall o | o in path
      ensures Refs(s', o) + 1 < RC_LIMIT
    {
      OnwardRefs(s, s', {a}, o);
    }
  }

  lemma OnwardRefs(s: State, s': State, p: set<GAddr>, o: GAddr)
    requires Onward(s, s', p)
    ensures Refs(s', o) == Refs(s, o) + if o in p then 1 else 0
  {
  }

  lemma OnwardType(s: State, s': State, p: set<GAddr>, t: nat)
    requires Onward(s, s', p) && NodeType(s, t)
    ensures NodeType(s', t) && s'.mem == s.mem && s.objs <= s'.objs
  {
    hide Refs, Dirty;
  }

  lemma SearchDescends(s: State, s': State, t: nat, a: GAddr, key: int, tree: Tree<GAddr>)
    requires CanSearch(s, t, a, key, tree) && tree.Node? && key != tree.key && Visited(s, s', a)
    ensures IsNode(Seen(s'), t, a)
    ensures CanSearch(s', t, LinkOf(Seen(s')[a], Going(tree, key)), key, Below(tree, key))
  {
    hide Inv, Refs, Rep, Distinct, Path, View, Find, Held, Onward, Slice, LinkFrom, KeyFrom, Parent, Nodes;
    hide KeyOf, LinkOf, Room, NodeType;
    OnwardType(s, s', {a}, t);
    Level(Seen(s), t, a, tree, key);
    RoomBelow(s, s', t, a, Path(Below(tree, key), key), 0);
  }

  lemma InsertDescends(s: State, s': State, t: nat, a: GAddr, key: int, tree: Tree<GAddr>)
    requires CanInsert(s, t, a, key, tree) && tree.Node? && key != tree.key && Visited(s, s', a)
    ensures IsNode(Seen(s'), t, a)
    ensures CanInsert(s', t, LinkOf(Seen(s')[a], Going(tree, key)), key, Below(tree, key))
  {
    hide Inv, Refs, Rep, Distinct, Path, View, Find, Held, Onward, Slice, LinkFrom, KeyFrom, Parent, Nodes;
    hide KeyOf, LinkOf, Room, NodeType;
    OnwardType(s, s', {a}, t);
    Level(Seen(s), t, a, tree, key);
    RoomBelow(s, s', t, a, Path(Below(tree, key), key), if Find(tree, key).None? then 1 else 0);
  }

  function WithBelow(tree: Tree<GAddr>, key: int, sub: Tree<GAddr>): Tree<GAddr>
    requires tree.Node?
  {
    if key < tree.key then Node(tree.node, tree.key, sub, tree.right) else Node(tree.node, tree.key, tree.left, sub)
  }

  lemma AfterLevel(tree: Tree<GAddr>, key: int, n: Option<GAddr>)
    requires tree.Node? && key != tree.key
    ensures After(tree, key, n) == WithBelow(tree, key, After(Below(tree, key), key, n))
    ensures Below(tree, key).Node? ==>
      After(Below(tree, key), key, n).Node? && After(Below(tree, key), key, n).node == Below(tree, key).node
  {
  }

  lemma RepLevel(v: Memory, t: nat, a: GAddr, tree: Tree<GAddr>, key: int, sub: Tree<GAddr>)
    requires tree.Node? && a == tree.node != GADDR_NULL && IsNode(v, t, a) && KeyOf(v[a]) == tree.key
    requires IsLink(Going(tree, key)) && IsLink(LEFT_AT + RIGHT_AT - Going(tree, key))
    requires Rep(v, t, LinkOf(v[a], Going(tree, key)), sub)
    requires Rep(v, t, LinkOf(v[a], LEFT_AT + RIGHT_AT - Going(tree, key)), Other(tree, key))
    ensures Rep(v, t, a, WithBelow(tree, key, sub))
  {
    hide KeyOf, LinkOf;
  }

  lemma RepRoot(v: Memory, t: nat, a: GAddr, tree: Tree<GAddr>)
    requires Rep(v, t, a, tree) && tree.Node?
    ensures a == tree.node
  {
  }

  /** The tree in memory after the link below a was stored. */
  lemma AscendsTree(v: Memory, v': Memory, t: nat, a: GAddr, key: int, tree: Tree<GAddr>, child: GAddr,
                    n: Option<GAddr>)
    requires Rep(v, t, a, tree) && Distinct(tree) && tree.Node? && key != tree.key && Representable(child)
    requires Rep(v', t, child, After(Below(tree, key), key, n))
    requires n.Some? ==> n.value !in Nodes(tree)
    requires SameBut(v, v', Parent(Below(tree, key), key))
    ensures a in v && a in v' && v'[a] == v[a] && IsNode(v', t, a) && IsLink(Going(tree, key))
    ensures var w := v'[a := Splice(v'[a], Going(tree, key), LinkBytes(child))];
      && Rep(w, t, a, After(tree, key, n))
      && SameBut(v, w, Parent(tree, key))
  {
    hide Slice, LinkFrom, KeyFrom, Splice, Distinct, Path, LinkOf, KeyOf, Rep, Insert, After, Nodes, Parent, Find;
    hide WithBelow, Going, Below, Other, LinkBytes, Representable;
    Level(v, t, a, tree, key);
    AfterLevel(tree, key, n);
    var at, sub := Going(tree, key), Below(tree, key);
    PathIsInside(sub, key);
    assert v'[a] == v[a];
    LinkStored(v[a], at, child);
    var w := v'[a := Splice(v'[a], at, LinkBytes(child))];
    AfterNodes(sub, key, n);
    RepFrame(v', w, t, child, After(sub, key, n));
    NodesAreObjects(v, t, LinkOf(v[a], LEFT_AT + RIGHT_AT - at), Other(tree, key));
    RepFrame(v, w, t, LinkOf(v[a], LEFT_AT + RIGHT_AT - at), Other(tree, key));
    RepLevel(w, t, a, tree, key, After(sub, key, n));
    if sub.Node? {
      RepRoot(v, t, LinkOf(v[a], at), sub);
      RepRoot(v', t, child, After(sub, key, n));
    } else {
      assert Parent(sub, key) == None by { LeafParent(sub, key); }
    }
  }

  lemma LeafParent(tree: Tree<GAddr>, key: int)
    requires tree.Leaf?
    ensures Parent(tree, key) == None
  {
  }

  lemma AfterNodes(tree: Tree<GAddr>, key: int, n: Option<GAddr>)
    ensures Nodes(After(tree, key, n)) <= Nodes(tree) + ToSet(n)
  {
    if n.Some? {
      GrownNodes(tree, key, n.value);
    }
  }

  /** Insertion adds at most the new node. */
  lemma {:induction false} GrownNodes(tree: Tree<GAddr>, key: int, n: GAddr)
    ensures Nodes(Insert(tree, key, n)) <= Nodes(tree) + {n}
  {
    match tree
    case Leaf =>
    case Node(_, _, l, r) =>
      GrownNodes(l, key, n);
      GrownNodes(r, key, n);
  }

  lemma AscendsCounts(s: State, s2: State, s3: State, s4: State, a: GAddr, path: set<GAddr>, made: set<GAddr>)
    requires Onward(s, s2, {a}) && Onward(s2, s3, path + made) && Onward(s3, s4, {}) && a !in path && a !in made
    ensures Onward(s, s4, {a} + path + made)
  {
    hide Onward;
    OnwardTransitive(s, s2, s3, {a}, path + made);
    OnwardTransitive(s, s3, s4, {a} + (path + made), {});
    assert {a} + (path + made) + {} == {a} + path + made;
  }

  /** The tree below has grown, or not, and its root is linked in. */
  lemma InsertAscends(s: State, s2: State, s3: State, s4: State, t: nat, a: GAddr, key: int, tree: Tree<GAddr>,
                      child: GAddr, n: Option<GAddr>)
    requires CanInsert(s, t, a, key, tree) && tree.Node? && key != tree.key && Visited(s, s2, a)
    requires Inv(s3) && Inserted(s2, s3, t, child, key, Below(tree, key), n)
    requires Representable(child) && IsNode(Seen(s3), t, a) && IsLink(Going(tree, key))
    requires Inv(s4) && Onward(s3, s4, {}) && s4.alloc == s3.alloc && s4.objs == s3.objs
    requires Seen(s4) == Seen(s3)[a := Splice(Seen(s3)[a], Going(tree, key), LinkBytes(child))]
    ensures Inserted(s, s4, t, a, key, tree, n)
  {
    hide Inv, Refs, Rep, Distinct, Path, View, Find, Held, Slice, Onward, Room, NodeType, LinkFrom, KeyFrom;
    hide Parent, Nodes, Splice, Dirty, LinkOf, KeyOf, LinkBytes, Insert;
    hide After, Going, Below, Other, Representable, SameBut, Inserted;
    InsertedParts(s2, s3, t, child, key, Below(tree, key), n);
    Level(Seen(s), t, a, tree, key);
    NodesAreObjects(Seen(s), t, a, tree);
    AscendsTree(Seen(s), Seen(s3), t, a, key, tree, child, n);
    OnwardType(s, s2, {a}, t);
    OnwardType(s3, s4, {}, t);
    AscendsCounts(s, s2, s3, s4, a, Path(Below(tree, key), key), ToSet(n));
    InsertedWhole(s, s4, t, a, key, tree, n);
  }

  lemma InsertedParts(s: State, s': State, t: nat, a': GAddr, key: int, tree: Tree<GAddr>, n: Option<GAddr>)
    requires Inv(s) && Inv(s') && Inserted(s, s', t, a', key, tree, n)
    ensures NodeType(s', t) && (n.Some? <==> Find(tree, key).None?)
    ensures n.Some? ==> n.value !in s.objs && n.value.typeId == t
    ensures s'.objs == s.objs + ToSet(n)
    ensures s'.alloc.next == s.alloc.next + (if n.Some? then s.mem.pageSize else 0)
    ensures Rep(Seen(s'), t, a', After(tree, key, n)) && SameBut(Seen(s), Seen(s'), Parent(tree, key))
    ensures Onward(s, s', Path(tree, key) + ToSet(n))
  {
    hide Inv, View, Rep, After, SameBut, Parent, Onward, Path, NodeType, Find;
  }

  lemma InsertedWhole(s: State, s': State, t: nat, a': GAddr, key: int, tree: Tree<GAddr>, n: Option<GAddr>)
    requires Inv(s) && Inv(s') && NodeType(s', t) && (n.Some? <==> Find(tree, key).None?)
    requires n.Some? ==> n.value !in s.objs && n.value.typeId == t
    requires s'.objs == s.objs + ToSet(n)
    requires s'.alloc.next == s.alloc.next + (if n.Some? then s.mem.pageSize else 0)
    requires Rep(Seen(s'), t, a', After(tree, key, n)) && SameBut(Seen(s), Seen(s'), Parent(tree, key))
    requires Onward(s, s', Path(tree, key) + ToSet(n))
    ensures Inserted(s, s', t, a', key, tree, n)
  {
    hide Inv, View, Rep, After, SameBut, Parent, Onward, Path, NodeType, Find;
  }

  // Search

  /** What search does: it finds what the tree has, nothing looks different after
      it, and one token is left on every node visited. */
  ghost predicate Searched(s: State, s': State, key: int, tree: Tree<GAddr>, found: GAddr)
    requires Inv(s) && Inv(s')
  {
    && Seen(s') == Seen(s) && s'.alloc == s.alloc && s'.objs == s.objs
    && Onward(s, s', Path(tree, key))
    && Find(tree, key) == if found == GADDR_NULL then None else Some(found)
  }

  /** On the way, with the subtree sub still to search. */
  ghost predicate Searching(s: State, s': State, t: nat, a: GAddr, key: int, tree: Tree<GAddr>, sub: Tree<GAddr>)
    requires Inv(s)
  {
    && CanSearch(s', t, a, key, sub) && Find(sub, key) == Find(tree, key) && Path(sub, key) <= Path(tree, key)
    && Seen(s') == Seen(s) && s'.alloc == s.alloc && s'.objs == s.objs
    && Onward(s, s', Path(tree, key) - Path(sub, key))
  }

  lemma SearchStarts(s: State, t: nat, a: GAddr, key: int, tree: Tree<GAddr>)
    requires CanSearch(s, t, a, key, tree)
    ensures Searching(s, s, t, a, key, tree, tree)
  {
    hide Inv, View, Rep, Distinct, Room, NodeType;
    assert forall o :: o !in Path(tree, key) - Path(tree, key);
  }

  /** What the next request can rely on. */
  lemma CanSearchParts(s: State, t: nat, a: GAddr, key: int, tree: Tree<GAddr>)
    requires CanSearch(s, t, a, key, tree)
    ensures a == GADDR_NULL <==> tree.Leaf?
    ensures tree.Node? ==>
      && a == tree.node && IsNode(Seen(s), t, a) && KeyOf(Seen(s)[a]) == tree.key && a in s.objs && a.typeId == t
      && |Held(s, t) + {a}| <= 256 && Refs(s, a) + 1 < RC_LIMIT
  {
    hide Inv, View, Refs, Held, KeyOf, LinkOf;
    if tree.Node? {
      assert a in Path(tree, key);
      SubsetSize(Held(s, t) + {a}, Held(s, t) + Path(tree, key));
    }
  }

  lemma SearchGoesOn(s: State, s1: State, s2: State, t: nat, a: GAddr, key: int, tree: Tree<GAddr>, sub: Tree<GAddr>)
    requires Inv(s) && Searching(s, s1, t, a, key, tree, sub) && sub.Node? && key != sub.key
    requires Inv(s1) && Visited(s1, s2, a)
    ensures IsNode(Seen(s2), t, a) && IsLink(Going(sub, key))
    ensures Searching(s, s2, t, LinkOf(Seen(s2)[a], Going(sub, key)), key, tree, Below(sub, key))
  {
    hide Inv, View, Rep, Distinct, Find, Path, Refs, Held, Onward, KeyOf, LinkOf, Room, NodeType, Nodes, Parent;
    SearchDescends(s1, s2, t, a, key, sub);
    Level(Seen(s1), t, a, sub, key);
    OnwardTransitive(s, s1, s2, Path(tree, key) - Path(sub, key), {a});
    assert Path(tree, key) - Path(sub, key) + {a} == Path(tree, key) - Path(Below(sub, key), key);
  }

  lemma SearchFinds(s: State, s1: State, s2: State, t: nat, a: GAddr, key: int, tree: Tree<GAddr>, sub: Tree<GAddr>)
    requires Inv(s) && Searching(s, s1, t, a, key, tree, sub) && sub.Node? && key == sub.key
    requires Inv(s1) && Visited(s1, s2, a)
    ensures Searched(s, s2, key, tree, a)
  {
    hide Inv, View, Rep, Distinct, Find, Path, Refs, Held, Onward, KeyOf, LinkOf, Room, NodeType, Nodes, Parent;
    Level(Seen(s1), t, a, sub, key);
    OnwardTransitive(s, s1, s2, Path(tree, key) - Path(sub, key), {a});
    assert Path(tree, key) - Path(sub, key) + {a} == Path(tree, key);
  }

  lemma SearchMisses(s: State, s1: State, t: nat, key: int, tree: Tree<GAddr>)
    requires Inv(s) && Searching(s, s1, t, GADDR_NULL, key, tree, Leaf)
    ensures Searched(s, s1, key, tree, GADDR_NULL)
  {
    hide Inv, View, Rep, Distinct, Refs, Held, Onward, KeyOf, LinkOf, Room, NodeType, Nodes, Parent;
    assert Path(tree, key) - Path<GAddr>(Leaf, key) == Path(tree, key);
  }
}
