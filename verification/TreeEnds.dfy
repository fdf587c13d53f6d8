/** Exactly when a call on the tree in disaggregated memory comes to an end. */
module TreeEnds {
  import opened Addr
  import opened SlotWord
  import opened CacheSpec
  import opened CacheRequest
  import opened Eviction
  import opened References
  import opened NodeLayout
  import opened BinaryTree
  import opened RemoteTree
  import opened DmTree
  import opened Sets

  /** `search` ends: the request for each node on the way does, in whatever state the
      requests before it have left. */
  ghost predicate SearchEnds(s: State, tree: Tree<GAddr>, key: int, draws: nat -> nat, from: nat)
    decreases tree
  {
    tree.Node? ==>
      && Inv(s) && Ends(s, tree.node, draws, from)
      && (key != tree.key ==>
            forall s1, n: nat :: from <= n && Visited(s, s1, tree.node) ==>
              SearchEnds(s1, Below(tree, key), key, draws, n))
  }

  /** `insert` ends: so do the requests on its way, and the one for a new node. */
  ghost predicate InsertEnds(s: State, t: nat, tree: Tree<GAddr>, key: int, draws: nat -> nat, from: nat)
    decreases tree
  {
    if tree.Leaf? then
      Inv(s) && forall s1, o, n: nat :: from <= n && Allocated(s, s1, t, o) ==> Ends(s1, o, draws, n)
    else
      && Inv(s) && Ends(s, tree.node, draws, from)
      && (key != tree.key ==>
            forall s1, n: nat :: from <= n && Visited(s, s1, tree.node) ==>
              InsertEnds(s1, t, Below(tree, key), key, draws, n))
  }

  /** A tree in memory, whose nodes can be counted once more. */
  ghost predicate Standing(s: State, t: nat, a: GAddr, tree: Tree<GAddr>) {
    && Inv(s) && NodeType(s, t) && Rep(Seen(s), t, a, tree) && Distinct(tree)
    && forall o :: o in Nodes(tree) ==> Refs(s, o) + 1 < RC_LIMIT
  }

  lemma RootIsObject(s: State, t: nat, a: GAddr, tree: Tree<GAddr>)
    requires Standing(s, t, a, tree) && tree.Node?
    ensures a == tree.node && a in s.objs && a.typeId == t && HasBlock(s, t) && Refs(s, a) + 1 < RC_LIMIT
    ensures IsNode(Seen(s), t, a)
  {
    hide Inv, View, Refs;
  }

  /** What is below a visited node stands as before. */
  lemma StandsBelow(s: State, s1: State, t: nat, a: GAddr, tree: Tree<GAddr>, key: int)
    requires Standing(s, t, a, tree) && tree.Node? && key != tree.key && Visited(s, s1, a)
    ensures Inv(s1) && IsNode(Seen(s1), t, a) && IsLink(Going(tree, key))
    ensures Standing(s1, t, LinkOf(Seen(s1)[a], Going(tree, key)), Below(tree, key))
    ensures Held(s1, t) == Held(s, t) + {a} && Path(tree, key) == {a} + Path(Below(tree, key), key)
    ensures Find(tree, key) == Find(Below(tree, key), key)
  {
    hide Inv, View, Refs, Held, Rep, Distinct, Path, Find, Nodes, Onward, LinkOf, KeyOf, Parent, NodeType;
    Level(Seen(s), t, a, tree, key);
    OnwardType(s, s1, {a}, t);
    OnwardHeld(s, s1, {a}, t);
    forall o | o in Nodes(Below(tree, key))
      ensures Refs(s1, o) + 1 < RC_LIMIT
    {
      OnwardRefs(s, s1, {a}, o);
    }
  }

  /** A request that ends leaves some state behind. */
  lemma SomeVisit(s: State, b: GAddr, draws: nat -> nat, from: nat) returns (s1: State)
    requires Inv(s) && b in s.objs && HasBlock(s, b.typeId) && Ends(s, b, draws, from) && Refs(s, b) + 1 < RC_LIMIT
    ensures Visited(s, s1, b)
  {
    hide InvHole, View, Refs, Onward, Evictable, CacheSpec.Request, IsValid, Quiescent, Rc;
    var victim := 0;
    if b !in s.table && s.blocks[b.typeId].free == [] {
      var n :| from <= n && EndsAt(s, b.typeId, draws, n);
      victim := draws(n) % 256;
    }
    s1 := CacheSpec.Request(s, b, victim);
    CountsInSlot(s, b);
    RequestKeeps(s, b, victim);
    RequestBlocks(s, b, victim);
    RequestOnward(s, b, victim);
  }

  /** A search ends if and only if the objects held of the node type, with those on
      its path, are no more than the slots. */
  lemma {:induction false} SearchEndsExactly(s: State, t: nat, a: GAddr, tree: Tree<GAddr>, key: int,
                                             draws: nat -> nat, from: nat)
    requires Standing(s, t, a, tree) && Recurs(draws)
    ensures SearchEnds(s, tree, key, draws, from) <==> |Held(s, t) + Path(tree, key)| <= 256
    decreases tree, 1
  {
    hide Inv, View, Refs, Held, Rep, Distinct, Onward, Recurs, Ends, NodeType, Visited, Standing;
    StandingParts(s, t, a, tree);
    if tree.Leaf? {
      HeldAtMost(s, t, -1);
      assert Held(s, t) + {} == Held(s, t);
      return;
    }
    RootIsObject(s, t, a, tree);
    RequestEndsExactly(s, a, draws, from);
    SubsetSize(Held(s, t) + {a}, Held(s, t) + Path(tree, key));
    if key != tree.key && Ends(s, a, draws, from) {
      forall s1, n: nat | from <= n && Visited(s, s1, a)
        ensures SearchEnds(s1, Below(tree, key), key, draws, n) <==> |Held(s, t) + Path(tree, key)| <= 256
      {
        SearchEndsBelow(s, s1, t, a, tree, key, draws, n);
      }
      var s1 := SomeVisit(s, a, draws, from);
      SearchEndsBelow(s, s1, t, a, tree, key, draws, from);
    }
  }

  lemma {:induction false} SearchEndsBelow(s: State, s1: State, t: nat, a: GAddr, tree: Tree<GAddr>, key: int,
                                           draws: nat -> nat, n: nat)
    requires Standing(s, t, a, tree) && Recurs(draws) && tree.Node? && key != tree.key && Inv(s) && Visited(s, s1, a)
    ensures SearchEnds(s1, Below(tree, key), key, draws, n) <==> |Held(s, t) + Path(tree, key)| <= 256
    decreases tree, 0
  {
    hide Inv, View, Held, Recurs, Visited, Standing, SearchEnds, Path;
    StandsBelow(s, s1, t, a, tree, key);
    SearchEndsExactly(s1, t, LinkOf(Seen(s1)[a], Going(tree, key)), Below(tree, key), key, draws, n);
    assert Held(s, t) + ({a} + Path(Below(tree, key), key)) == Held(s1, t) + Path(Below(tree, key), key);
  }

  /** An insertion ends if and only if the same holds with one slot more for a node
      that it has to make. */
  lemma {:induction false} InsertEndsExactly(s: State, t: nat, a: GAddr, tree: Tree<GAddr>, key: int,
                                             draws: nat -> nat, from: nat)
    requires Standing(s, t, a, tree) && Recurs(draws) && (Find(tree, key).None? ==> PageLeft(s))
    ensures InsertEnds(s, t, tree, key, draws, from)
       <==> |Held(s, t) + Path(tree, key)| + (if Find(tree, key).None? then 1 else 0) <= 256
    decreases tree, 1
  {
    hide Inv, View, Refs, Held, Rep, Distinct, Onward, Recurs, Ends, NodeType, Visited, Standing, PageLeft, Allocated;
    StandingParts(s, t, a, tree);
    if tree.Leaf? {
      assert Held(s, t) + {} == Held(s, t);
      CreationEnds(s, t, draws, from);
      return;
    }
    RootIsObject(s, t, a, tree);
    RequestEndsExactly(s, a, draws, from);
    SubsetSize(Held(s, t) + {a}, Held(s, t) + Path(tree, key));
    if key != tree.key && Ends(s, a, draws, from) {
      forall s1, n: nat | from <= n && Visited(s, s1, a)
        ensures InsertEnds(s1, t, Below(tree, key), key, draws, n)
           <==> |Held(s, t) + Path(tree, key)| + (if Find(tree, key).None? then 1 else 0) <= 256
      {
        InsertEndsBelow(s, s1, t, a, tree, key, draws, n);
      }
      var s1 := SomeVisit(s, a, draws, from);
      InsertEndsBelow(s, s1, t, a, tree, key, draws, from);
    }
  }

  lemma {:induction false} InsertEndsBelow(s: State, s1: State, t: nat, a: GAddr, tree: Tree<GAddr>, key: int,
                                           draws: nat -> nat, n: nat)
    requires Standing(s, t, a, tree) && Recurs(draws) && tree.Node? && key != tree.key && Inv(s) && Visited(s, s1, a)
    requires Find(tree, key).None? ==> PageLeft(s)
    ensures InsertEnds(s1, t, Below(tree, key), key, draws, n)
       <==> |Held(s, t) + Path(tree, key)| + (if Find(tree, key).None? then 1 else 0) <= 256
    decreases tree, 0
  {
    hide Inv, View, Held, Recurs, Visited, Standing, InsertEnds, Path, Find, PageLeft;
    StandsBelow(s, s1, t, a, tree, key);
    SamePage(s, s1, a);
    InsertEndsExactly(s1, t, LinkOf(Seen(s1)[a], Going(tree, key)), Below(tree, key), key, draws, n);
    assert Held(s, t) + ({a} + Path(Below(tree, key), key)) == Held(s1, t) + Path(Below(tree, key), key);
  }

  lemma SamePage(s: State, s1: State, a: GAddr)
    requires Inv(s) && Visited(s, s1, a)
    ensures PageLeft(s1) <==> PageLeft(s)
  {
    hide Inv, View;
  }

  /** The request of `createNode` ends if and only if a slot is left. */
  lemma CreationEnds(s: State, t: nat, draws: nat -> nat, from: nat)
    requires Inv(s) && NodeType(s, t) && PageLeft(s) && Recurs(draws)
    ensures (forall s1, o, n: nat :: from <= n && Allocated(s, s1, t, o) ==> Ends(s1, o, draws, n))
       <==> |Held(s, t)| + 1 <= 256
  {
    hide Inv, View, Held, Recurs, Ends, PageLeft, Allocated, AllocObject;
    forall s1, o, n: nat | from <= n && Allocated(s, s1, t, o)
      ensures Ends(s1, o, draws, n) <==> |Held(s, t)| + 1 <= 256
    {
      NewNodeEnds(s, s1, t, o, draws, n);
    }
    NodeAllocated(s, t);
    var (s1, r) := AllocObject(s, t, NODE_SIZE);
    NewNodeEnds(s, s1, t, r.value, draws, from);
  }

  lemma NewNodeEnds(s: State, s1: State, t: nat, o: GAddr, draws: nat -> nat, n: nat)
    requires Inv(s) && Allocated(s, s1, t, o) && Recurs(draws)
    ensures Ends(s1, o, draws, n) <==> |Held(s, t)| + 1 <= 256
  {
    hide Inv, View, Held, Recurs, Ends, Onward, SameBut, Refs;
    OnwardHeld(s, s1, {}, t);
    assert Held(s, t) + {} == Held(s, t);
    NewIsNotHeld(s, t, o);
    RequestEndsExactly(s1, o, draws, n);
    assert |Held(s, t) + {o}| == |Held(s, t)| + 1;
  }

  lemma NewIsNotHeld(s: State, t: nat, o: GAddr)
    requires Inv(s) && o !in s.objs
    ensures o !in Held(s, t)
  {
    UncachedHasNoRefs(s, o);
  }

  lemma StandingParts(s: State, t: nat, a: GAddr, tree: Tree<GAddr>)
    requires Standing(s, t, a, tree)
    ensures Inv(s) && HasBlock(s, t) && NodeType(s, t)
  {
  }
}
