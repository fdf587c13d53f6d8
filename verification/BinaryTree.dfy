/** Binary search trees as values, with the identity of every node: what the
    native tree and the tree in remote memory both compute. */
module BinaryTree {
  import opened Options

  datatype Tree<N> = Leaf | Node(node: N, key: int, left: Tree<N>, right: Tree<N>)

  function Keys<N>(t: Tree<N>): set<int> {
    match t
    case Leaf => {}
    case Node(_, k, l, r) => Keys(l) + {k} + Keys(r)
  }

  function Nodes<N(==)>(t: Tree<N>): set<N> {
    match t
    case Leaf => {}
    case Node(n, _, l, r) => Nodes(l) + {n} + Nodes(r)
  }

  function Size<N>(t: Tree<N>): nat {
    match t
    case Leaf => 0
    case Node(_, _, l, r) => Size(l) + 1 + Size(r)
  }

  /** No node is used twice: subtrees do not share memory. */
  predicate Distinct<N(==)>(t: Tree<N>) {
    match t
    case Leaf => true
    case Node(n, _, l, r) =>
      Distinct(l) && Distinct(r) && n !in Nodes(l) && n !in Nodes(r) && Nodes(l) !! Nodes(r)
  }

  predicate Ordered<N>(t: Tree<N>) {
    match t
    case Leaf => true
    case Node(_, k, l, r) =>
      && Ordered(l) && Ordered(r)
      && (forall x :: x in Keys(l) ==> x < k) && (forall x :: x in Keys(r) ==> k < x)
  }

  function Inorder<N>(t: Tree<N>): seq<int> {
    match t
    case Leaf => []
    case Node(_, k, l, r) => Inorder(l) + [k] + Inorder(r)
  }

  /** The tree without the identities of its nodes. */
  function Shape<N>(t: Tree<N>): Tree<()> {
    match t
    case Leaf => Leaf
    case Node(_, k, l, r) => Node((), k, Shape(l), Shape(r))
  }

  /** Follows the search path of a key. */
  function Find<N>(t: Tree<N>, key: int): Option<N> {
    match t
    case Leaf => None
    case Node(n, k, l, r) => if key == k then Some(n) else if key < k then Find(l, key) else Find(r, key)
  }

  /** The nodes that search and insertion visit. */
  function Path<N(==)>(t: Tree<N>, key: int): set<N> {
    match t
    case Leaf => {}
    case Node(n, k, l, r) => {n} + if key == k then {} else if key < k then Path(l, key) else Path(r, key)
  }

  /** The nodes at which the search for a key goes to the left. */
  function LeftTurns<N(==)>(t: Tree<N>, key: int): set<N> {
    match t
    case Leaf => {}
    case Node(n, k, l, r) =>
      if key == k then {} else if key < k then {n} + LeftTurns(l, key) else LeftTurns(r, key)
  }

  /** The nodes that insertion goes on from. */
  function Passed<N(==)>(t: Tree<N>, key: int): set<N> {
    match t
    case Leaf => {}
    case Node(n, k, l, r) =>
      if key == k then {} else {n} + Passed(if key < k then l else r, key)
  }

  /** The node whose link changes when a key that is not there is inserted. */
  function Parent<N>(t: Tree<N>, key: int): Option<N> {
    match t
    case Leaf => None
    case Node(n, k, l, r) =>
      if key == k then None
      else
        var sub := if key < k then l else r;
        if sub.Leaf? then Some(n) else Parent(sub, key)
  }

  function Insert<N>(t: Tree<N>, key: int, n: N): Tree<N> {
    match t
    case Leaf => Node(n, key, Leaf, Leaf)
    case Node(m, k, l, r) =>
      if key < k then Node(m, k, Insert(l, key, n), r)
      else if key > k then Node(m, k, l, Insert(r, key, n))
      else t
  }

  /** The leftmost node. */
  function Min<N>(t: Tree<N>): Tree<N>
    requires t.Node?
    ensures Min(t).Node?
  {
    if t.left.Leaf? then t else Min(t.left)
  }

  /** With two children the node takes the least key of its right subtree, and
      that key is deleted there. */
  function Delete<N>(t: Tree<N>, key: int): Tree<N>
    decreases Size(t)
  {
    match t
    case Leaf => Leaf
    case Node(n, k, l, r) =>
      if key < k then Node(n, k, Delete(l, key), r)
      else if key > k then Node(n, k, l, Delete(r, key))
      else if l.Leaf? then r
      else if r.Leaf? then l
      else Node(n, Min(r).key, l, Delete(r, Min(r).key))
  }

  /** The node that a deletion gives back. */
  function Dropped<N>(t: Tree<N>, key: int): Option<N>
    decreases Size(t)
  {
    match t
    case Leaf => None
    case Node(n, k, l, r) =>
      if key < k then Dropped(l, key)
      else if key > k then Dropped(r, key)
      else if l.Leaf? || r.Leaf? then Some(n)
      else Dropped(r, Min(r).key)
  }

  // Insertion

  /** Insertion adds exactly the key and keeps the order. */
  lemma {:induction false} InsertKeys<N>(t: Tree<N>, key: int, n: N)
    requires Ordered(t)
    ensures Keys(Insert(t, key, n)) == Keys(t) + {key} && Ordered(Insert(t, key, n))
  {
    match t
    case Leaf =>
    case Node(m, k, l, r) =>
      if key < k {
        InsertKeys(l, key, n);
      } else if key > k {
        InsertKeys(r, key, n);
      }
  }

  /** A key that search finds makes insertion do nothing; otherwise one new node
      joins and no node is used twice. */
  lemma {:induction false} InsertNodes<N>(t: Tree<N>, key: int, n: N)
    requires Distinct(t) && n !in Nodes(t)
    ensures Find(t, key).Some? ==> Insert(t, key, n) == t
    ensures Find(t, key).None? ==> Nodes(Insert(t, key, n)) == Nodes(t) + {n}
    ensures Distinct(Insert(t, key, n))
    ensures Find(Insert(t, key, n), key) == if Find(t, key).Some? then Find(t, key) else Some(n)
  {
    match t
    case Leaf =>
    case Node(m, k, l, r) =>
      if key < k {
        InsertNodes(l, key, n);
      } else if key > k {
        InsertNodes(r, key, n);
      }
  }

  /** The shape of the result does not depend on where nodes live. */
  lemma {:induction false} InsertShape<N>(t: Tree<N>, key: int, n: N)
    ensures Shape(Insert(t, key, n)) == Insert(Shape(t), key, ())
    ensures Find(t, key).Some? <==> Find(Shape(t), key).Some?
  {
    match t
    case Leaf =>
    case Node(_, k, l, r) =>
      if key < k {
        InsertShape(l, key, n);
      } else if key > k {
        InsertShape(r, key, n);
      }
  }

  /** A key that is there already leaves the tree as it is. */
  lemma {:induction false} InsertNothing<N>(t: Tree<N>, key: int, n: N)
    requires Find(t, key).Some?
    ensures Insert(t, key, n) == t
  {
    match t
    case Leaf =>
    case Node(_, k, l, r) =>
      if key < k {
        InsertNothing(l, key, n);
      } else if key > k {
        InsertNothing(r, key, n);
      }
  }

  // Search

  /** A node of the tree with a key. */
  predicate Carries<N(==)>(t: Tree<N>, n: N, key: int) {
    t.Node? && ((t.node == n && t.key == key) || Carries(t.left, n, key) || Carries(t.right, n, key))
  }

  /** Search finds a key exactly when it is in the tree, at a node that carries it. */
  lemma {:induction false} FindIff<N>(t: Tree<N>, key: int)
    requires Ordered(t)
    ensures Find(t, key).Some? <==> key in Keys(t)
    ensures Find(t, key).Some? ==> Find(t, key).value in Nodes(t) && Carries(t, Find(t, key).value, key)
  {
    match t
    case Leaf =>
    case Node(_, k, l, r) =>
      FindIff(l, key);
      FindIff(r, key);
  }

  lemma {:induction false} PathIsInside<N>(t: Tree<N>, key: int)
    ensures Path(t, key) <= Nodes(t) && ToSet(Parent(t, key)) <= Path(t, key)
    ensures Find(t, key).Some? ==> Parent(t, key).None?
  {
    match t
    case Leaf =>
    case Node(_, k, l, r) =>
      var sub := if key < k then l else r;
      PathIsInside(sub, key);
      assert key != k ==> Find(t, key) == Find(sub, key);
  }

  // Deletion

  lemma {:induction false} MinIsLeast<N>(t: Tree<N>)
    requires t.Node? && Ordered(t)
    ensures Min(t).key in Keys(t) && forall x :: x in Keys(t) ==> Min(t).key <= x
  {
    if t.left.Node? {
      MinIsLeast(t.left);
    }
  }

  /** Deletion removes exactly the key and keeps the order. */
  lemma {:induction false} DeleteKeys<N>(t: Tree<N>, key: int)
    requires Ordered(t)
    ensures Keys(Delete(t, key)) == Keys(t) - {key} && Ordered(Delete(t, key))
    decreases Size(t)
  {
    match t
    case Leaf =>
    case Node(_, k, l, r) =>
      if key < k {
        DeleteKeys(l, key);
      } else if key > k {
        DeleteKeys(r, key);
      } else if l.Node? && r.Node? {
        MinIsLeast(r);
        DeleteKeys(r, Min(r).key);
      }
  }

  function ToSet<N(==)>(o: Option<N>): set<N> {
    match o
    case None => {}
    case Some(n) => {n}
  }

  /** Deletion keeps nodes apart and gives up exactly one of them if it finds the
      key, and none otherwise. */
  lemma {:induction false} DeleteNodes<N>(t: Tree<N>, key: int)
    requires Ordered(t) && Distinct(t)
    ensures Distinct(Delete(t, key))
    ensures Nodes(Delete(t, key)) == Nodes(t) - ToSet(Dropped(t, key)) && ToSet(Dropped(t, key)) <= Nodes(t)
    ensures Dropped(t, key).Some? <==> key in Keys(t)
    decreases Size(t)
  {
    match t
    case Leaf =>
    case Node(_, k, l, r) =>
      if key < k {
        DeleteNodes(l, key);
      } else if key > k {
        DeleteNodes(r, key);
      } else if l.Node? && r.Node? {
        MinIsLeast(r);
        DeleteNodes(r, Min(r).key);
      }
  }

  /** Deletion makes no new nodes. */
  lemma {:induction false} DeleteInside<N>(t: Tree<N>, key: int)
    ensures Nodes(Delete(t, key)) <= Nodes(t)
    decreases Size(t)
  {
    match t
    case Leaf =>
    case Node(_, k, l, r) =>
      if key < k {
        DeleteInside(l, key);
      } else if key > k {
        DeleteInside(r, key);
      } else if l.Node? && r.Node? {
        DeleteInside(r, Min(r).key);
      }
  }

  /** One level of a deletion. */
  lemma DeleteCases<N>(t: Tree<N>, key: int)
    requires t.Node?
    ensures key < t.key ==>
      && Delete(t, key) == Node(t.node, t.key, Delete(t.left, key), t.right)
      && Dropped(t, key) == Dropped(t.left, key)
    ensures key > t.key ==>
      && Delete(t, key) == Node(t.node, t.key, t.left, Delete(t.right, key))
      && Dropped(t, key) == Dropped(t.right, key)
    ensures key == t.key && t.left.Leaf? ==> Delete(t, key) == t.right && Dropped(t, key) == Some(t.node)
    ensures key == t.key && t.left.Node? && t.right.Leaf? ==>
      Delete(t, key) == t.left && Dropped(t, key) == Some(t.node)
    ensures key == t.key && t.left.Node? && t.right.Node? ==>
      && Delete(t, key) == Node(t.node, Min(t.right).key, t.left, Delete(t.right, Min(t.right).key))
      && Dropped(t, key) == Dropped(t.right, Min(t.right).key)
  {
  }

  // Traversal

  ghost predicate StrictlySorted(xs: seq<int>) {
    forall i, j :: 0 <= i < j < |xs| ==> xs[i] < xs[j]
  }

  lemma {:induction false} InorderKeys<N>(t: Tree<N>)
    ensures forall x :: x in Inorder(t) <==> x in Keys(t)
    ensures |Inorder(t)| == Size(t)
  {
    match t
    case Leaf =>
    case Node(_, k, l, r) =>
      InorderKeys(l);
      InorderKeys(r);
  }

  /** A tree is ordered exactly when its in-order traversal is strictly sorted. */
  lemma {:induction false} InorderSortedIff<N>(t: Tree<N>)
    ensures Ordered(t) <==> StrictlySorted(Inorder(t))
  {
    match t
    case Leaf =>
    case Node(_, k, l, r) =>
      InorderSortedIff(l);
      InorderSortedIff(r);
      InorderKeys(l);
      InorderKeys(r);
      SortedAround(Inorder(l), k, Inorder(r));
  }

  lemma SortedAround(xs: seq<int>, k: int, ys: seq<int>)
    ensures StrictlySorted(xs + [k] + ys)
       <==> StrictlySorted(xs) && StrictlySorted(ys)
            && (forall x :: x in xs ==> x < k) && (forall y :: y in ys ==> k < y)
  {
    var all := xs + [k] + ys;
    if StrictlySorted(all) {
      forall x | x in xs
        ensures x < k
      {
        var i :| 0 <= i < |xs| && xs[i] == x;
        assert all[i] == x && all[|xs|] == k;
      }
      forall y | y in ys
        ensures k < y
      {
        var j :| 0 <= j < |ys| && ys[j] == y;
        assert all[|xs| + 1 + j] == y && all[|xs|] == k;
      }
      forall i, j | 0 <= i < j < |xs|
        ensures xs[i] < xs[j]
      {
        assert all[i] == xs[i] && all[j] == xs[j];
      }
      forall i, j | 0 <= i < j < |ys|
        ensures ys[i] < ys[j]
      {
        assert all[|xs| + 1 + i] == ys[i] && all[|xs| + 1 + j] == ys[j];
      }
    }
    if StrictlySorted(xs) && StrictlySorted(ys) && (forall x :: x in xs ==> x < k) && (forall y :: y in ys ==> k < y) {
      forall i, j | 0 <= i < j < |all|
        ensures all[i] < all[j]
      {
        assert i < |xs| ==> all[i] == xs[i] && xs[i] in xs;
        assert j > |xs| ==> all[j] == ys[j - |xs| - 1] && ys[j - |xs| - 1] in ys;
        if i < |xs| && j < |xs| {
          assert all[j] == xs[j];
        } else if i > |xs| {
          assert all[i] == ys[i - |xs| - 1];
        }
      }
    }
  }

  // Runs

  datatype Change = Add(key: int) | Remove(key: int)

  /** A run of insertions and deletions on shapes, and on the set of keys. */
  function Changed(t: Tree<()>, changes: seq<Change>): Tree<()>
    decreases |changes|
  {
    if changes == [] then t
    else Changed(match changes[0] case Add(k) => Insert(t, k, ()) case Remove(k) => Delete(t, k), changes[1..])
  }

  function ChangedSet(keys: set<int>, changes: seq<Change>): set<int>
    decreases |changes|
  {
    if changes == [] then keys
    else ChangedSet(match changes[0] case Add(k) => keys + {k} case Remove(k) => keys - {k}, changes[1..])
  }

  /** Over any run the tree holds the keys that a set would, and traversal stays
      strictly sorted. */
  lemma {:induction false} RunStaysSorted(t: Tree<()>, changes: seq<Change>)
    requires Ordered(t)
    ensures Keys(Changed(t, changes)) == ChangedSet(Keys(t), changes)
    ensures StrictlySorted(Inorder(Changed(t, changes)))
    decreases |changes|
  {
    if changes == [] {
      InorderSortedIff(t);
    } else {
      match changes[0] {
        case Add(k) =>
          InsertKeys(t, k, ());
          RunStaysSorted(Insert(t, k, ()), changes[1..]);
        case Remove(k) =>
          DeleteKeys(t, k);
          RunStaysSorted(Delete(t, k), changes[1..]);
      }
    }
  }

  /** Deletion, too, does not depend on where nodes live. */
  lemma {:induction false} DeleteShape<N>(t: Tree<N>, key: int)
    ensures Shape(Delete(t, key)) == Delete(Shape(t), key)
    decreases Size(t)
  {
    match t
    case Leaf =>
    case Node(_, k, l, r) =>
      if key < k {
        DeleteShape(l, key);
      } else if key > k {
        DeleteShape(r, key);
      } else if l.Node? && r.Node? {
        MinShape(r);
        DeleteShape(r, Min(r).key);
      }
  }

  lemma {:induction false} MinShape<N>(t: Tree<N>)
    requires t.Node?
    ensures Shape(t).Node? && Min(Shape(t)).key == Min(t).key
  {
    if t.left.Node? {
      MinShape(t.left);
    }
  }

  /** A tree and its shape have the same keys in the same order. */
  lemma {:induction false} ShapeAlike<N>(t: Tree<N>)
    ensures Keys(Shape(t)) == Keys(t) && Inorder(Shape(t)) == Inorder(t)
    ensures Ordered(Shape(t)) <==> Ordered(t)
  {
    match t
    case Leaf =>
    case Node(_, _, l, r) =>
      ShapeAlike(l);
      ShapeAlike(r);
  }
}
