/** The native binary tree on the heap, before the transformation. */
module NativeTree {
  import opened Options
  import opened BinaryTree

  class TreeNode {
    var key: int
    var left: TreeNode?
    var right: TreeNode?

    constructor (key: int)
      ensures this.key == key && left == null && right == null
    {
      this.key, left, right := key, null, null;
    }
  }

  /** The heap at p is laid out as the tree t says. */
  ghost predicate Represents(p: TreeNode?, t: Tree<TreeNode>)
    reads Nodes(t)
  {
    match t
    case Leaf => p == null
    case Node(n, k, l, r) => p == n && n.key == k && Represents(n.left, l) && Represents(n.right, r)
  }

  /** The nodes of a tree on the heap are allocated. */
  lemma {:induction false} NodesAllocated(p: TreeNode?, t: Tree<TreeNode>)
    requires Represents(p, t)
    ensures forall n :: n in Nodes(t) ==> allocated(n)
  {
    match t
    case Leaf =>
    case Node(n, _, l, r) =>
      NodesAllocated(n.left, l);
      NodesAllocated(n.right, r);
  }

  /** `insert`: the tree on the heap becomes the one with the key inserted; an
      existing key changes nothing. */
  method InsertNative(root: TreeNode?, key: int, ghost t: Tree<TreeNode>)
    returns (r: TreeNode?, ghost t': Tree<TreeNode>, ghost n: TreeNode?)
    requires Represents(root, t) && Distinct(t)
    modifies Nodes(t)
    ensures Represents(r, t') && Distinct(t')
    ensures Find(t, key).Some? ==> t' == t && n == null
    ensures Find(t, key).None? ==> n != null && fresh(n) && t' == Insert(t, key, n)
    ensures Nodes(t') == if n == null then Nodes(t) else Nodes(t) + {n}
    decreases t
  {
    if root == null {
      r := new TreeNode(key);
      n := r;
      t' := Node(r, key, Leaf, Leaf);
      return;
    }
    NodesAllocated(root, t);
    var rootKey := root.key;
    if key < rootKey {
      var child;
      ghost var l;
      child, l, n := InsertNative(root.left, key, t.left);
      root.left := child;
      t' := Node(root, t.key, l, t.right);
    } else if key > rootKey {
      var child;
      ghost var rt;
      child, rt, n := InsertNative(root.right, key, t.right);
      root.right := child;
      t' := Node(root, t.key, t.left, rt);
    } else {
      t', n := t, null;
    }
    r := root;
  }

  /** `search`: the node on the search path that carries the key, or null. */
  method SearchNative(node: TreeNode?, key: int, ghost t: Tree<TreeNode>) returns (found: TreeNode?)
    requires Represents(node, t)
    ensures Find(t, key) == if found == null then None else Some(found)
    ensures found != null ==> found.key == key
  {
    var p := node;
    ghost var u := t;
    while p != null
      invariant Represents(p, u) && Find(u, key) == Find(t, key)
      decreases u
    {
      if p.key == key {
        return p;
      } else if key < p.key {
        p, u := p.left, u.left;
      } else {
        p, u := p.right, u.right;
      }
    }
    return null;
  }

  /** `findMin`: the leftmost node. */
  method FindMin(node: TreeNode?, ghost t: Tree<TreeNode>) returns (m: TreeNode?)
    requires Represents(node, t)
    ensures t.Leaf? ==> m == null
    ensures t.Node? ==> m == Min(t).node && m in Nodes(t) && m.key == Min(t).key
  {
    var current := node;
    ghost var u := t;
    while current != null && current.left != null
      invariant Represents(current, u) && Nodes(u) <= Nodes(t)
      invariant u.Leaf? <==> t.Leaf?
      invariant t.Node? ==> Min(u) == Min(t)
      decreases u
    {
      current, u := current.left, u.left;
    }
    return current;
  }

  /** `deleteNode`: the tree on the heap becomes the one with the key deleted;
      one node, not in it, has been given back to the heap if the key was there. */
  method DeleteNative(root: TreeNode?, key: int, ghost t: Tree<TreeNode>)
    returns (r: TreeNode?, ghost freed: Option<TreeNode>)
    requires Represents(root, t) && Distinct(t)
    modifies Nodes(t)
    ensures Represents(r, Delete(t, key)) && freed == Dropped(t, key)
    decreases Size(t), 1
  {
    r, freed := root, None;
    if root == null {
      return;
    }
    hide Delete, Dropped, Keys, Min;
    ghost var n, k, l, rt := t.node, t.key, t.left, t.right;
    DeleteCases(t, key);
    var child;
    if key < root.key {
      NodesAllocated(root.right, rt);
      DeleteInside(l, key);
      child, freed := DeleteNative(root.left, key, l);
      root.left := child;
      assert Represents(r, Node(n, k, Delete(l, key), rt));
    } else if key > root.key {
      NodesAllocated(root.left, l);
      DeleteInside(rt, key);
      child, freed := DeleteNative(root.right, key, rt);
      root.right := child;
      assert Represents(r, Node(n, k, l, Delete(rt, key)));
    } else if root.left == null {
      r, freed := root.right, Some(root);
    } else if root.right == null {
      r, freed := root.left, Some(root);
    } else {
      freed := TakeLeast(root, t);
    }
  }

  /** A node with two children takes over the least key on its right, which is
      deleted there. */
  method TakeLeast(root: TreeNode, ghost t: Tree<TreeNode>) returns (ghost freed: Option<TreeNode>)
    requires Represents(root, t) && Distinct(t) && t.Node? && t.left.Node? && t.right.Node?
    modifies Nodes(t)
    ensures var least := Min(t.right).key;
      && Represents(root, Node(t.node, least, t.left, Delete(t.right, least)))
      && freed == Dropped(t.right, least)
    decreases Size(t), 0
  {
    hide Delete, Dropped, Keys, Min;
    NodesAllocated(root.left, t.left);
    NodesAllocated(root.right, t.right);
    var temp := FindMin(root.right, t.right);
    root.key := temp.key;
    assert Represents(root.left, t.left) && Represents(root.right, t.right);
    DeleteInside(t.right, root.key);
    var child;
    child, freed := DeleteNative(root.right, root.key, t.right);
    root.right := child;
    assert Represents(root, Node(t.node, root.key, t.left, Delete(t.right, root.key)));
  }

  /** `inorderTraversal`: what is printed, key by key. */
  method InorderTraversal(root: TreeNode?, ghost t: Tree<TreeNode>) returns (printed: seq<int>)
    requires Represents(root, t)
    ensures printed == Inorder(t)
    decreases t
  {
    printed := [];
    if root != null {
      NodesAllocated(root.right, t.right);
      var left := InorderTraversal(root.left, t.left);
      var right := InorderTraversal(root.right, t.right);
      printed := left + [root.key] + right;
    }
  }

  // Runs

  /** A run of insertions and deletions: the tree on the heap stays ordered, shares
      nothing, holds the keys that a set would, and is made of nodes that it had and
      of new ones. */
  method RunNative(root: TreeNode?, changes: seq<Change>, ghost t: Tree<TreeNode>)
    returns (r: TreeNode?, ghost t': Tree<TreeNode>)
    requires Represents(root, t) && Distinct(t) && Ordered(t)
    modifies Nodes(t)
    ensures Represents(r, t') && Distinct(t') && Ordered(t')
    ensures Shape(t') == Changed(Shape(t), changes) && Keys(t') == ChangedSet(Keys(t), changes)
    ensures forall n :: n in Nodes(t') ==> n in Nodes(t) || fresh(n)
  {
    r, t' := root, t;
    var i := 0;
    assert changes[0..] == changes;
    while i < |changes|
      invariant 0 <= i <= |changes| && Represents(r, t') && Distinct(t') && Ordered(t')
      invariant Changed(Shape(t'), changes[i..]) == Changed(Shape(t), changes)
      invariant forall n :: n in Nodes(t') ==> n in Nodes(t) || fresh(n)
    {
      assert changes[i..][0] == changes[i] && changes[i..][1..] == changes[i + 1..];
      r, t' := ChangeNative(r, changes[i], t');
      i := i + 1;
    }
    assert changes[i..] == [];
    ShapeAlike(t);
    ShapeAlike(t');
    RunStaysSorted(Shape(t), changes);
  }

  /** One insertion or deletion. */
  method ChangeNative(root: TreeNode?, change: Change, ghost t: Tree<TreeNode>)
    returns (r: TreeNode?, ghost t': Tree<TreeNode>)
    requires Represents(root, t) && Distinct(t) && Ordered(t)
    modifies Nodes(t)
    ensures Represents(r, t') && Distinct(t') && Ordered(t')
    ensures Shape(t') == match change
                         case Add(k) => Insert(Shape(t), k, ())
                         case Remove(k) => Delete(Shape(t), k)
    ensures forall n :: n in Nodes(t') ==> n in Nodes(t) || fresh(n)
  {
    match change
    case Add(k) =>
      ghost var n;
      r, t', n := InsertNative(root, k, t);
      AddedShape(t, t', k, n);
    case Remove(k) =>
      ghost var freed;
      r, freed := DeleteNative(root, k, t);
      t' := Delete(t, k);
      DeleteKeys(t, k);
      DeleteNodes(t, k);
      DeleteShape(t, k);
  }

  lemma AddedShape(t: Tree<TreeNode>, t': Tree<TreeNode>, key: int, n: TreeNode?)
    requires Ordered(t)
    requires Find(t, key).Some? ==> t' == t
    requires Find(t, key).None? ==> n != null && t' == Insert(t, key, n)
    ensures Ordered(t') && Shape(t') == Insert(Shape(t), key, ())
  {
    if Find(t, key).None? {
      InsertKeys(t, key, n);
      InsertShape(t, key, n);
    } else {
      InsertNothing(t, key, Find(t, key).value);
      InsertShape(t, key, Find(t, key).value);
    }
  }

  /** What a program prints that makes changes and then traverses the tree: the keys
      that are left, in strictly increasing order. */
  method PrintAfter(root: TreeNode?, changes: seq<Change>, ghost t: Tree<TreeNode>) returns (printed: seq<int>)
    requires Represents(root, t) && Distinct(t) && Ordered(t)
    modifies Nodes(t)
    ensures StrictlySorted(printed)
    ensures forall x :: x in printed <==> x in ChangedSet(Keys(t), changes)
  {
    var r;
    ghost var t';
    r, t' := RunNative(root, changes, t);
    printed := InorderTraversal(r, t');
    InorderSortedIff(t');
    InorderKeys(t');
  }
}
