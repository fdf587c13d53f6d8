/** The binary tree in disaggregated memory: the native tree with its pointers
    made global addresses and its loads and stores made calls of the cache. */
module DmTree {
  import opened Options
  import opened Bits
  import opened Addr
  import opened Alloc
  import opened SlotWord
  import opened CacheSpec
  import opened CacheRequest
  import opened Context
  import opened Eviction
  import opened References
  import opened NodeLayout
  import opened BinaryTree
  import opened RemoteTree
  import opened Sets

  /** The context works, nodes are a registered type, and every slot is drawn now
      and then. */
  ghost predicate Ready(c: ComputeContext, t: nat)
    reads c, c.Repr
    ensures Ready(c, t) ==> c.Valid() && Inv(c.State())
  {
    c.Valid() && NodeType(c.State(), t) && Recurs(c.draws)
  }

  /** A raw pointer to the slot that an object is cached in. */
  ghost predicate PointsTo(s: CacheSpec.State, ptr: int, o: GAddr) {
    Cached(s, o) && Refs(s, o) > 0 && ptr == s.table[o] * NODE_SIZE
  }

  /** A pointer stays good as long as no token is dropped, whatever is requested
      and evicted in between. */
  lemma PointerStays(s: CacheSpec.State, s': CacheSpec.State, p: set<GAddr>, ptr: int, o: GAddr)
    requires PointsTo(s, ptr, o) && Onward(s, s', p)
    ensures PointsTo(s', ptr, o) && (Dirty(s, o) ==> Dirty(s', o))
  {
    assert Refs(s', o) > 0;
  }

  /** `dm_cache_request` of a whole node. */
  method Request(c: ComputeContext, o: GAddr) returns (token: Token)
    requires Ready(c, o.typeId) && o in c.State().objs
    requires |Held(c.State(), o.typeId) + {o}| <= 256 && Refs(c.State(), o) + 1 < RC_LIMIT
    modifies c.Repr
    ensures Ready(c, o.typeId) && c.Repr == old(c.Repr)
    ensures Visited(old(c.State()), c.State(), o) && Dirties(old(c.State()), c.State(), {})
    ensures TokenOf(c.State(), token, o)
  {
    hide ComputeContext.HeapOk, ComputeContext.State, InvHole, Recurs, Held, ExtractTag, CacheSpec.Request;
    hide PinsAfter, View;
    ghost var s := c.State();
    ObjectIsBase(s, o);
    RequestEndsExactly(s, o, c.draws, c.drawn);
    CachedIffListed(s, o);
    ghost var victim;
    token, victim := c.CacheRequest(o);
    RequestOnward(s, o, victim);
    RequestDirties(s, o, victim);
    RequestBlocks(s, o, victim);
    CachedIffListed(c.State(), o);
  }

  /** The address of an object is its own base. */
  lemma ObjectIsBase(s: CacheSpec.State, o: GAddr)
    requires Inv(s) && o in s.objs
    ensures HasBlock(s, o.typeId) && SizeOf(s, o.typeId) > 0 && 0 < s.mem.pageSize < TWO_64 && o.offset < TWO_56
    ensures CacheBase(s, o) == o
  {
    hide ExtractTag;
    assert ObjOk(s, o);
    assert Inside(s, o, o);
    AllocatorAndCacheAgree(s, o, o);
  }

  /** A token that was given out for an object and not dropped. */
  ghost predicate TokenOf(s: CacheSpec.State, token: Token, o: GAddr) {
    Cached(s, o) && Refs(s, o) > 0 && token == Token(o.offset, o.typeId, s.table[o], 0)
  }

  /** `dm_cache_access`. */
  method Access(c: ComputeContext, token: Token, ghost o: GAddr) returns (ptr: int)
    requires Ready(c, o.typeId) && TokenOf(c.State(), token, o)
    ensures PointsTo(c.State(), ptr, o)
  {
    ptr := c.CacheAccess(token);
  }

  /** `dm_cache_access_mut`: the slot is marked dirty; nothing looks different. */
  method AccessMut(c: ComputeContext, token: Token, ghost o: GAddr) returns (ptr: int)
    requires Ready(c, o.typeId) && TokenOf(c.State(), token, o)
    modifies c.Repr
    ensures Ready(c, o.typeId) && c.Repr == old(c.Repr)
    ensures Touching(old(c.State()), c.State(), o) && Seen(c.State()) == Seen(old(c.State()))
    ensures SameBut(Seen(old(c.State())), Seen(c.State()), Some(o))
    ensures PointsTo(c.State(), ptr, o) && Dirty(c.State(), o)
  {
    hide ComputeContext.HeapOk, ComputeContext.State, InvHole, Recurs, View, MarkDirty;
    ghost var s := c.State();
    CachedIffListed(s, o);
    ptr := c.CacheAccessMut(token);
    MarkDirtyOnward(s, o.typeId, s.table[o]);
    MarkDirties(s, o);
    PointerStays(s, c.State(), {}, ptr, o);
  }

  /** No token was taken or dropped, and the slot of the object, at most, became dirty. */
  ghost predicate Touching(s: CacheSpec.State, s': CacheSpec.State, o: GAddr) {
    Onward(s, s', {}) && s'.alloc == s.alloc && s'.objs == s.objs && Dirties(s, s', {o})
  }

  /** A pointer leads to the bytes of its object. */
  lemma PointerOk(s: CacheSpec.State, ptr: int, o: GAddr)
    requires Inv(s) && NodeType(s, o.typeId) && PointsTo(s, ptr, o)
    ensures o in s.objs && IsNode(Seen(s), o.typeId, o) && Live(s, o.typeId, s.table[o])
    ensures SlotAt(s, o.typeId, s.table[o]).tag == o.offset
    ensures IsSlot(s, o.typeId, s.table[o]) && |Bytes(s, o.typeId, s.table[o])| == SizeOf(s, o.typeId)
    ensures Seen(s)[o] == Bytes(s, o.typeId, s.table[o])
  {
    hide Quiescent, IsValid, Slice;
    ViewAt(s, o);
    assert BlockShape(s.blocks[o.typeId]);
  }

  lemma UpdateIsSameBut(v: Memory, o: GAddr, bs: seq<byte>)
    ensures SameBut(v, v[o := bs], Some(o))
  {
  }

  /** `lptr->key`. */
  method LoadKey(c: ComputeContext, t: nat, ptr: int, ghost o: GAddr) returns (key: int32)
    requires o.typeId == t && Ready(c, t) && PointsTo(c.State(), ptr, o)
    ensures IsNode(Seen(c.State()), t, o) && key == KeyOf(Seen(c.State())[o])
  {
    hide ComputeContext.HeapOk, ComputeContext.State, InvHole, Recurs, View, KeyFrom;
    PointerOk(c.State(), ptr, o);
    var bs := c.Load(t, c.table[o], ptr + KEY_AT, 4);
    key := KeyFrom(bs);
  }

  /** `lptr->left` or `lptr->right`. */
  method LoadLink(c: ComputeContext, t: nat, ptr: int, at: nat, ghost o: GAddr) returns (link: GAddr)
    requires o.typeId == t && Ready(c, t) && PointsTo(c.State(), ptr, o) && IsLink(at)
    ensures IsNode(Seen(c.State()), t, o) && link == LinkOf(Seen(c.State())[o], at)
  {
    hide ComputeContext.HeapOk, ComputeContext.State, InvHole, Recurs, View, LinkFrom;
    PointerOk(c.State(), ptr, o);
    var bs := c.Load(t, c.table[o], ptr + at, 8);
    link := LinkFrom(bs);
  }

  /** `lptr->key = key`, through a pointer taken for writing. */
  method StoreKey(c: ComputeContext, t: nat, ptr: int, key: int32, ghost o: GAddr)
    requires o.typeId == t && Ready(c, t) && PointsTo(c.State(), ptr, o) && Dirty(c.State(), o)
    modifies c.Repr
    ensures Ready(c, t) && c.Repr == old(c.Repr) && Touching(old(c.State()), c.State(), o)
    ensures IsNode(Seen(old(c.State())), t, o)
    ensures SameBut(Seen(old(c.State())), Seen(c.State()), Some(o))
    ensures Seen(c.State()) == Seen(old(c.State()))[o := Splice(Seen(old(c.State()))[o], KEY_AT, KeyBytes(key))]
  {
    hide Ready, ComputeContext.Valid, ComputeContext.HeapOk, ComputeContext.State, Inv, Touching, SameBut;
    hide View, Splice, PointsTo, Dirty, Refs;
    StoreBytes(c, t, ptr, KEY_AT, KeyBytes(key), o);
  }

  /** `lptr->left = link` or `lptr->right = link`. */
  method StoreLink(c: ComputeContext, t: nat, ptr: int, at: nat, link: GAddr, ghost o: GAddr)
    requires o.typeId == t && Ready(c, t) && PointsTo(c.State(), ptr, o) && Dirty(c.State(), o)
    requires IsLink(at) && Representable(link)
    modifies c.Repr
    ensures Ready(c, t) && c.Repr == old(c.Repr) && Touching(old(c.State()), c.State(), o)
    ensures IsNode(Seen(old(c.State())), t, o)
    ensures SameBut(Seen(old(c.State())), Seen(c.State()), Some(o))
    ensures Seen(c.State()) == Seen(old(c.State()))[o := Splice(Seen(old(c.State()))[o], at, LinkBytes(link))]
  {
    hide Ready, ComputeContext.Valid, ComputeContext.HeapOk, ComputeContext.State, Inv, Touching, SameBut;
    hide View, Splice, PointsTo, Dirty, Refs;
    StoreBytes(c, t, ptr, at, LinkBytes(link), o);
  }

  method StoreBytes(c: ComputeContext, t: nat, ptr: int, at: nat, bs: seq<byte>, ghost o: GAddr)
    requires o.typeId == t && Ready(c, t) && PointsTo(c.State(), ptr, o) && Dirty(c.State(), o)
    requires at + |bs| <= NODE_SIZE
    modifies c.Repr
    ensures Ready(c, t) && c.Repr == old(c.Repr) && Touching(old(c.State()), c.State(), o)
    ensures IsNode(Seen(old(c.State())), t, o)
    ensures Seen(c.State()) == Seen(old(c.State()))[o := Splice(Seen(old(c.State()))[o], at, bs)]
    ensures SameBut(Seen(old(c.State())), Seen(c.State()), Some(o))
  {
    hide ComputeContext.HeapOk, ComputeContext.State, Inv, Recurs, View, CacheSpec.Store, Splice, Pins, IsValid;
    hide Touching, PointsTo, Dirty, Refs, Cached, Live, Ready, ComputeContext.Valid, NodeType;
    ghost var s := c.State();
    WasReady(c, t);
    PointerOk(s, ptr, o);
    StoreTouches(s, t, ptr, at, bs, o);
    c.Save(t, s.table[o], ptr + at, bs);
    UpdateIsSameBut(Seen(s), o, Splice(Seen(s)[o], at, bs));
    IsReady(c, t);
  }

  lemma WasReady(c: ComputeContext, t: nat)
    requires Ready(c, t)
    ensures c.Valid() && NodeType(c.State(), t) && Recurs(c.draws)
  {
  }

  lemma IsReady(c: ComputeContext, t: nat)
    requires c.Valid() && NodeType(c.State(), t) && Recurs(c.draws)
    ensures Ready(c, t)
  {
  }

  lemma StoreTouches(s: CacheSpec.State, t: nat, ptr: int, at: nat, bs: seq<byte>, o: GAddr)
    requires Inv(s) && o.typeId == t && NodeType(s, t) && PointsTo(s, ptr, o) && Dirty(s, o)
    requires at + |bs| <= NODE_SIZE
    ensures o in s.table && IsSlot(s, t, s.table[o]) && |Bytes(s, t, s.table[o])| == SizeOf(s, t)
    ensures SlotAt(s, t, s.table[o]).dirty && ptr == s.table[o] * SizeOf(s, t) && SizeOf(s, t) == NODE_SIZE
    ensures Touching(s, CacheSpec.Store(s, t, s.table[o], at, bs), o)
    ensures NodeType(CacheSpec.Store(s, t, s.table[o], at, bs), t)
  {
    hide Inv, View, CacheSpec.Store, Splice, Onward, Pins, IsValid;
    PointerOk(s, ptr, o);
    StoreOnward(s, t, s.table[o], at, bs);
    StoreDirties(s, t, s.table[o], at, bs);
    OnwardType(s, CacheSpec.Store(s, t, s.table[o], at, bs), {}, t);
    PointerStays(s, CacheSpec.Store(s, t, s.table[o], at, bs), {}, ptr, o);
  }

  lemma TouchingTransitive(s: CacheSpec.State, s1: CacheSpec.State, s2: CacheSpec.State, o: GAddr)
    requires Touching(s, s1, o) && Touching(s1, s2, o)
    ensures Touching(s, s2, o)
  {
    hide Onward;
    var none: set<GAddr> := {};
    OnwardTransitive(s, s1, s2, none, none);
    assert none + none == none;
  }

  // createNode

  /** A new object of the node type; nothing else changed. */
  ghost predicate Allocated(s: CacheSpec.State, s': CacheSpec.State, t: nat, n: GAddr)
    requires Inv(s)
  {
    && Inv(s') && NodeType(s', t) && n.typeId == t && n !in s.objs && s'.objs == s.objs + {n}
    && n != GADDR_NULL && Representable(n)
    && s'.alloc.next == s.alloc.next + s.mem.pageSize
    && Onward(s, s', {}) && Dirties(s, s', {}) && SameBut(Seen(s), Seen(s'), None)
  }

  lemma NodeAllocated(s: CacheSpec.State, t: nat)
    requires Inv(s) && NodeType(s, t) && PageLeft(s)
    ensures s.mem.pageSize > 0 && t < |s.blocks| == |s.alloc.chunks|
    ensures RealSize(s, t, NODE_SIZE) > 0 && s.alloc.next + s.mem.pageSize < TWO_64
    ensures var (s', r) := AllocObject(s, t, NODE_SIZE);
      r.Some? && Allocated(s, s', t, r.value)
  {
    hide InvHole, Allocate, View, Onward;
    PoolBounds(s);
    AllocObjectKeeps(s, t, NODE_SIZE);
    SameSlotsOnward(s, AllocObject(s, t, NODE_SIZE).0);
    SameSlotsDirties(s, AllocObject(s, t, NODE_SIZE).0);
  }

  lemma PoolBounds(s: CacheSpec.State)
    requires Inv(s)
    ensures 0 < s.mem.pageSize <= TWO_56 && UpperBound(s.mem) <= TWO_56 && RESERVED_TYPES <= |s.blocks| <= MAX_TYPES
    ensures |s.alloc.chunks| == |s.blocks|
  {
    if s.mem.pageCount > 0 {
      MulMonotone(s.mem.pageSize, 1, s.mem.pageCount);
    }
  }

  /** `dm_malloc` of a node. */
  method NewNode(c: ComputeContext, t: nat) returns (n: GAddr)
    requires Ready(c, t) && PageLeft(c.State())
    modifies c.Repr
    ensures Ready(c, t) && fresh(c.Repr - old(c.Repr)) && Allocated(old(c.State()), c.State(), t, n)
  {
    hide ComputeContext.HeapOk, ComputeContext.State, InvHole, Recurs, View, Onward, AllocObject;
    NodeAllocated(c.State(), t);
    var r := c.DisaggAlloc(t, NODE_SIZE);
    n := r.value;
  }

  /** The first stores to a node. */
  method InitNode(c: ComputeContext, t: nat, token: Token, key: int32, ghost n: GAddr)
    requires n.typeId == t && Ready(c, t) && TokenOf(c.State(), token, n)
    modifies c.Repr
    ensures Ready(c, t) && c.Repr == old(c.Repr) && Touching(old(c.State()), c.State(), n)
    ensures SameBut(Seen(old(c.State())), Seen(c.State()), Some(n)) && IsNewNode(Seen(c.State()), t, n, key)
  {
    hide Ready, ComputeContext.Valid, ComputeContext.HeapOk, ComputeContext.State, Inv, View, Onward;
    hide Touching, Refs, Splice, KeyOf, LinkOf, KeyBytes, LinkBytes;
    hide TokenOf, PointsTo, Dirty, Cached, NodeType, SameBut;
    ghost var s := c.State();
    var ptr := AccessMut(c, token, n);
    ghost var s1 := c.State();
    TokenStays(s, s1, token, n);
    StoreKey(c, t, ptr, key, n);
    ghost var s2 := c.State();
    KeyStored(Seen(s1)[n], key);
    TouchingTransitive(s, s1, s2, n);
    TokenStays(s, s2, token, n);
    ptr := AccessMut(c, token, n);
    ghost var s3 := c.State();
    TouchingTransitive(s, s2, s3, n);
    StoreNulls(c, t, ptr, n);
    TouchingTransitive(s, s3, c.State(), n);
    SameButTwice(Seen(s1), Seen(s2), Seen(c.State()), n);
  }

  /** `lptr->left.val = lptr->right.val = NULL`. */
  method StoreNulls(c: ComputeContext, t: nat, ptr: int, ghost n: GAddr)
    requires n.typeId == t && Ready(c, t) && PointsTo(c.State(), ptr, n) && Dirty(c.State(), n)
    modifies c.Repr
    ensures Ready(c, t) && c.Repr == old(c.Repr) && Touching(old(c.State()), c.State(), n)
    ensures SameBut(Seen(old(c.State())), Seen(c.State()), Some(n)) && IsNode(Seen(old(c.State())), t, n)
    ensures IsNewNode(Seen(c.State()), t, n, KeyOf(Seen(old(c.State()))[n]))
  {
    hide Ready, ComputeContext.Valid, ComputeContext.HeapOk, ComputeContext.State, Inv, View, Onward;
    hide Touching, Refs, Splice, KeyOf, LinkOf, LinkBytes;
    hide PointsTo, Dirty, Cached, NodeType, SameBut;
    ghost var s := c.State();
    StoreLink(c, t, ptr, RIGHT_AT, GADDR_NULL, n);
    ghost var s1 := c.State();
    PointerAfterStore(s, s1, ptr, n);
    StoreLink(c, t, ptr, LEFT_AT, GADDR_NULL, n);
    BothLinksStored(Seen(s)[n], GADDR_NULL);
    TouchingTransitive(s, s1, c.State(), n);
    SameButTwice(Seen(s), Seen(s1), Seen(c.State()), n);
  }

  lemma SameButTwice(v: Memory, v1: Memory, v2: Memory, n: GAddr)
    requires SameBut(v, v1, Some(n)) && SameBut(v1, v2, Some(n))
    ensures SameBut(v, v2, Some(n))
  {
  }

  lemma PointerAfterStore(s: CacheSpec.State, s': CacheSpec.State, ptr: int, n: GAddr)
    requires PointsTo(s, ptr, n) && Touching(s, s', n)
    ensures PointsTo(s', ptr, n) && Dirty(s', n)
  {
    PointerStays(s, s', {}, ptr, n);
  }

  /** A node with a key and no children. */
  predicate IsNewNode(v: Memory, t: nat, n: GAddr, key: int32) {
    IsNode(v, t, n) && KeyOf(v[n]) == key && LinkOf(v[n], LEFT_AT) == GADDR_NULL && LinkOf(v[n], RIGHT_AT) == GADDR_NULL
  }

  lemma TokenStays(s: CacheSpec.State, s': CacheSpec.State, token: Token, n: GAddr)
    requires TokenOf(s, token, n) && Touching(s, s', n)
    ensures TokenOf(s', token, n)
  {
    PointerStays(s, s', {}, s.table[n] * NODE_SIZE, n);
  }

  /** `createNode`. */
  method CreateNode(c: ComputeContext, t: nat, key: int32) returns (n: GAddr)
    requires Ready(c, t) && PageLeft(c.State()) && |Held(c.State(), t)| < 256
    modifies c.Repr
    ensures Ready(c, t) && fresh(c.Repr - old(c.Repr))
    ensures Inserted(old(c.State()), c.State(), t, n, key, Leaf, Some(n))
    ensures n in Seen(c.State()) && HasKeyOnly(Seen(c.State())[n], key)
    ensures Dirties(old(c.State()), c.State(), {n})
  {
    hide ComputeContext.HeapOk, ComputeContext.State, Inv, InvHole, Recurs, View, Onward, Touching, TokenOf;
    hide Held, Refs, SameBut, Rep, IsNewNode, Inserted, HasKeyOnly, Dirties;
    ghost var s := c.State();
    n := NewNode(c, t);
    ghost var s1 := c.State();
    FirstReference(s, s1, t, n);
    var token := Request(c, n);
    ghost var s2 := c.State();
    InitNode(c, t, token, key, n);
    NodeCreated(s, s1, s2, c.State(), t, key, n);
  }

  lemma NodeCreated(s: CacheSpec.State, s1: CacheSpec.State, s2: CacheSpec.State, s3: CacheSpec.State,
                    t: nat, key: int32, n: GAddr)
    requires Inv(s) && Allocated(s, s1, t, n) && Visited(s1, s2, n) && Inv(s3) && NodeType(s3, t)
    requires Dirties(s1, s2, {}) && Touching(s2, s3, n)
    requires SameBut(Seen(s2), Seen(s3), Some(n)) && IsNewNode(Seen(s3), t, n, key)
    ensures Inserted(s, s3, t, n, key, Leaf, Some(n))
    ensures n in Seen(s3) && HasKeyOnly(Seen(s3)[n], key)
    ensures Dirties(s, s3, {n})
  {
    hide Dirties, Inv, View, Onward, KeyOf, LinkOf, Refs, Dirty, NodeType, IsNewNode, Rep, SameBut;
    var none: set<GAddr> := {};
    OnwardTransitive(s, s1, s2, none, {n});
    OnwardTransitive(s, s2, s3, none + {n}, none);
    DirtiesTransitive(s, s1, s2, none, none, {n});
    DirtiesTransitive(s, s2, s3, none + none, {n}, none);
    assert none + none + {n} == {n};
    assert none + {n} + none == Path<GAddr>(Leaf, key) + ToSet(Some(n));
    NewNodeRep(Seen(s3), t, n, key);
    NewNodeBytes(Seen(s3), t, n, key);
    SameButNew(Seen(s), Seen(s1), Seen(s3), n);
  }

  /** The bytes of a new node. */
  lemma NewNodeBytes(v: Memory, t: nat, n: GAddr, key: int32)
    requires IsNewNode(v, t, n, key)
    ensures n in v && HasKeyOnly(v[n], key)
  {
    hide KeyOf, LinkOf;
    NodeBytes(v[n], key, GADDR_NULL);
  }

  lemma NewNodeRep(v: Memory, t: nat, n: GAddr, key: int32)
    requires IsNewNode(v, t, n, key) && n != GADDR_NULL
    ensures Rep(v, t, n, Node(n, key, Leaf, Leaf))
  {
  }

  lemma SameButNew(v: Memory, v1: Memory, v2: Memory, n: GAddr)
    requires SameBut(v, v1, None) && SameBut(v1, v2, Some(n)) && n !in v
    ensures SameBut(v, v2, None)
  {
  }

  lemma FirstReference(s: CacheSpec.State, s1: CacheSpec.State, t: nat, n: GAddr)
    requires Inv(s) && Allocated(s, s1, t, n) && |Held(s, t)| < 256
    ensures |Held(s1, t) + {n}| <= 256 && Refs(s1, n) == 0
  {
    hide InvHole, Onward, Held, Refs, SameBut;
    OnwardHeld(s, s1, {}, t);
    OnwardRefs(s, s1, {}, n);
    UncachedHasNoRefs(s, n);
  }

  /** What both `insert` and `search` do first with a node: request it and load
      its key. */
  method Visit(c: ComputeContext, t: nat, a: GAddr) returns (token: Token, key: int32)
    requires a.typeId == t && Ready(c, t) && a in c.State().objs
    requires |Held(c.State(), t) + {a}| <= 256 && Refs(c.State(), a) + 1 < RC_LIMIT
    modifies c.Repr
    ensures Ready(c, t) && c.Repr == old(c.Repr)
    ensures Visited(old(c.State()), c.State(), a) && TokenOf(c.State(), token, a)
    ensures Dirties(old(c.State()), c.State(), {})
    ensures IsNode(Seen(old(c.State())), t, a) && key == KeyOf(Seen(old(c.State()))[a])
  {
    hide Ready, ComputeContext.Valid, ComputeContext.HeapOk, ComputeContext.State, Inv, View, Visited;
    hide TokenOf, PointsTo, Refs, Held, KeyOf, LinkOf, Dirties;
    ghost var s := c.State();
    token := Request(c, a);
    var ptr := Access(c, token, a);
    key := LoadKey(c, t, ptr, a);
    VisitedLooks(s, c.State(), a);
  }

  // insert

  /** `insert`: the tree in remote memory becomes the one that the native insertion
      computes, whatever is evicted and fetched on the way. The pointer to the
      parent's slot is taken before the recursive call and stored through after it. */
  method InsertRemote(c: ComputeContext, t: nat, root: GAddr, key: int32, ghost tree: Tree<GAddr>)
    returns (r: GAddr, ghost n: Option<GAddr>)
    requires Ready(c, t) && CanInsert(c.State(), t, root, key, tree)
    modifies c.Repr
    ensures Ready(c, t) && fresh(c.Repr - old(c.Repr))
    ensures Inserted(old(c.State()), c.State(), t, r, key, tree, n)
    ensures Dirties(old(c.State()), c.State(), Passed(tree, key) + ToSet(n))
    decreases tree, 1
  {
    hide Ready, ComputeContext.Valid, ComputeContext.HeapOk, ComputeContext.State, Inv, View, Onward;
    hide Touching, TokenOf, PointsTo, Dirty, Cached, Refs, Held, NodeType, SameBut, Splice, KeyOf, LinkOf;
    hide CanInsert, Inserted, Rep, Visited, Room, Distinct, Find, Path, Insert, Below, Dirties, HasKeyOnly;
    ghost var s := c.State();
    CanInsertParts(s, t, root, key, tree);
    if root == GADDR_NULL {
      r := CreateNode(c, t, key);
      n := Some(r);
      assert Passed(tree, key) + ToSet(n) == {r};
      return;
    }
    r := root;
    var token, rootKey := Visit(c, t, root);
    if key < rootKey {
      n := InsertBelow(c, t, token, LEFT_AT, root, key, tree, s);
    } else if key > rootKey {
      n := InsertBelow(c, t, token, RIGHT_AT, root, key, tree, s);
    } else {
      n := None;
      InsertedNothing(s, c.State(), t, root, key, tree);
      assert Passed(tree, key) + ToSet(n) == {};
    }
  }

  /** What the call can rely on at its entry. */
  lemma CanInsertParts(s: CacheSpec.State, t: nat, a: GAddr, key: int, tree: Tree<GAddr>)
    requires CanInsert(s, t, a, key, tree)
    ensures a == GADDR_NULL <==> tree.Leaf?
    ensures tree.Leaf? ==> PageLeft(s) && |Held(s, t)| < 256
    ensures tree.Node? ==>
      && IsNode(Seen(s), t, a) && KeyOf(Seen(s)[a]) == tree.key && a in s.objs && a.typeId == t
      && |Held(s, t) + {a}| <= 256 && Refs(s, a) + 1 < RC_LIMIT
  {
    hide Inv, View, Refs, Held, KeyOf, LinkOf;
    if tree.Node? {
      assert a in Path(tree, key);
      SubsetSize(Held(s, t) + {a}, Held(s, t) + Path(tree, key));
    } else {
      assert Held(s, t) + {} == Held(s, t);
    }
  }

  lemma VisitedLooks(s: CacheSpec.State, s1: CacheSpec.State, a: GAddr)
    requires Inv(s) && Visited(s, s1, a)
    ensures Inv(s1) && Seen(s1) == Seen(s)
  {
  }

  /** The key is there already. */
  lemma InsertedNothing(s: CacheSpec.State, s1: CacheSpec.State, t: nat, a: GAddr, key: int, tree: Tree<GAddr>)
    requires CanInsert(s, t, a, key, tree) && Visited(s, s1, a) && tree.Node? && key == tree.key
    ensures Inserted(s, s1, t, a, key, tree, None)
  {
    hide Inv, View, Onward, Refs, Held, KeyOf, LinkOf, Rep, Path, Find, Parent, Distinct, Room, NodeType, SameBut;
    OnwardType(s, s1, {a}, t);
    Level(Seen(s), t, a, tree, key);
    SameLooks(Seen(s), Seen(s1));
    assert {a} + ToSet<GAddr>(None) == {a};
  }

  lemma SameLooks(v: Memory, v': Memory)
    requires v' == v
    ensures SameBut(v, v', None)
  {
  }

  /** One level of `insert`, to the left or to the right: mark the node dirty, go
      on below it, and store the link through the pointer taken before. */
  method InsertBelow(c: ComputeContext, t: nat, token: Token, at: nat, a: GAddr, key: int32,
                     ghost tree: Tree<GAddr>, ghost s: CacheSpec.State)
    returns (ghost n: Option<GAddr>)
    requires Ready(c, t) && Inv(s) && CanInsert(s, t, a, key, tree)
    requires tree.Node? && key != tree.key && at == Going(tree, key) && IsLink(at)
    requires Visited(s, c.State(), a) && TokenOf(c.State(), token, a) && a.typeId == t
    requires Dirties(s, c.State(), {})
    modifies c.Repr
    ensures Ready(c, t) && fresh(c.Repr - old(c.Repr))
    ensures Inserted(s, c.State(), t, a, key, tree, n)
    ensures Dirties(s, c.State(), Passed(tree, key) + ToSet(n))
    decreases tree, 0
  {
    hide Ready, ComputeContext.Valid, ComputeContext.HeapOk, ComputeContext.State, Inv, View, Onward, Touching;
    hide TokenOf, PointsTo, Dirty, Cached, Refs, Held, NodeType, SameBut, Splice, KeyOf, LinkOf, IsNode;
    hide CanInsert, Inserted, Rep, Visited, Room, Distinct, Find, Path, Insert, Going, Dirties, Passed;
    var ptr, link := TakePointer(c, t, token, at, a, key, tree, s);
    ghost var s2 := c.State();
    var child;
    child, n := InsertRemote(c, t, link, key, Below(tree, key));
    LinkChild(c, t, ptr, at, a, child, key, tree, s, s2, n);
  }

  /** Before the call below: the pointer for writing, and the link to follow. */
  method TakePointer(c: ComputeContext, t: nat, token: Token, at: nat, a: GAddr, ghost key: int32,
                     ghost tree: Tree<GAddr>, ghost s: CacheSpec.State)
    returns (ptr: int, link: GAddr)
    requires Ready(c, t) && Inv(s) && CanInsert(s, t, a, key, tree)
    requires tree.Node? && key != tree.key && at == Going(tree, key) && IsLink(at)
    requires Visited(s, c.State(), a) && TokenOf(c.State(), token, a) && a.typeId == t
    requires Dirties(s, c.State(), {})
    modifies c.Repr
    ensures Ready(c, t) && c.Repr == old(c.Repr)
    ensures Visited(s, c.State(), a) && PointsTo(c.State(), ptr, a) && Dirty(c.State(), a)
    ensures Dirties(s, c.State(), {a})
    ensures CanInsert(c.State(), t, link, key, Below(tree, key))
  {
    hide Ready, ComputeContext.Valid, ComputeContext.HeapOk, ComputeContext.State, Inv, View, Onward, Touching;
    hide TokenOf, PointsTo, Dirty, Cached, Refs, Held, NodeType, SameBut, Splice, KeyOf, LinkOf, IsNode;
    hide CanInsert, Inserted, Rep, Visited, Room, Distinct, Find, Path, Insert, Going;
    ghost var s1 := c.State();
    ptr := AccessMut(c, token, a);
    VisitedAndTouched(s, s1, c.State(), a);
    FirstDirtied(s, s1, c.State(), a);
    InsertDescends(s, c.State(), t, a, key, tree);
    link := LoadLink(c, t, ptr, at, a);
  }

  /** After it: the link is stored through the same pointer. */
  method LinkChild(c: ComputeContext, t: nat, ptr: int, at: nat, ghost a: GAddr, child: GAddr, ghost key: int32,
                   ghost tree: Tree<GAddr>, ghost s: CacheSpec.State, ghost s2: CacheSpec.State, ghost n: Option<GAddr>)
    requires Ready(c, t) && Inv(s) && CanInsert(s, t, a, key, tree) && a.typeId == t
    requires tree.Node? && key != tree.key && at == Going(tree, key) && IsLink(at)
    requires Visited(s, s2, a) && Inv(s2) && PointsTo(s2, ptr, a) && Dirty(s2, a)
    requires Inserted(s2, c.State(), t, child, key, Below(tree, key), n)
    requires Dirties(s, s2, {a}) && Dirties(s2, c.State(), Passed(Below(tree, key), key) + ToSet(n))
    modifies c.Repr
    ensures Ready(c, t) && c.Repr == old(c.Repr)
    ensures Inserted(s, c.State(), t, a, key, tree, n)
    ensures Dirties(s, c.State(), Passed(tree, key) + ToSet(n))
  {
    hide Ready, ComputeContext.Valid, ComputeContext.HeapOk, ComputeContext.State, Inv, View, Onward, Touching;
    hide TokenOf, PointsTo, Dirty, Cached, Refs, Held, NodeType, SameBut, Splice, KeyOf, LinkOf, IsNode;
    hide CanInsert, Inserted, Rep, Visited, Room, Distinct, Find, Path, Insert, Going, Dirties, Passed;
    ghost var s3 := c.State();
    StillLinked(s, s2, s3, t, ptr, a, key, tree, child, n);
    StoreLink(c, t, ptr, at, child, a);
    StoredLink(s3, c.State(), a);
    DirtiedOnTheWay(s, s2, s3, c.State(), t, ptr, a, child, key, tree, n);
    InsertAscends(s, s2, s3, c.State(), t, a, key, tree, child, n);
  }

  lemma VisitedAndTouched(s: CacheSpec.State, s1: CacheSpec.State, s2: CacheSpec.State, a: GAddr)
    requires Inv(s) && Visited(s, s1, a) && Touching(s1, s2, a) && Inv(s2) && Seen(s2) == Seen(s1)
    ensures Visited(s, s2, a)
  {
    hide Inv, View, Onward, Refs, Dirty;
    var none: set<GAddr> := {};
    OnwardTransitive(s, s1, s2, {a}, none);
    assert {a} + none == {a};
  }

  lemma FirstDirtied(s: CacheSpec.State, s1: CacheSpec.State, s2: CacheSpec.State, a: GAddr)
    requires Dirties(s, s1, {}) && Touching(s1, s2, a)
    ensures Dirties(s, s2, {a})
  {
    hide Dirty;
  }

  /** An insertion makes dirty the nodes that it goes on from, and the new one. */
  lemma DirtiedOnTheWay(s: CacheSpec.State, s2: CacheSpec.State, s3: CacheSpec.State, s4: CacheSpec.State, t: nat,
                        ptr: int, a: GAddr, child: GAddr, key: int, tree: Tree<GAddr>, n: Option<GAddr>)
    requires tree.Node? && key != tree.key && a == tree.node
    requires PointsTo(s2, ptr, a) && Inv(s2) && Inv(s3)
    requires Inserted(s2, s3, t, child, key, Below(tree, key), n) && Touching(s3, s4, a)
    requires Dirties(s, s2, {a}) && Dirties(s2, s3, Passed(Below(tree, key), key) + ToSet(n))
    ensures Dirties(s, s4, Passed(tree, key) + ToSet(n))
  {
    hide Inv, View, Dirties, Refs, Rep, Find, Distinct, Room, NodeType, SameBut, After, Parent, Path, Onward;
    hide Inserted, Below, Passed, ToSet, Cached;
    InsertedParts(s2, s3, t, child, key, Below(tree, key), n);
    var p, d := Path(Below(tree, key), key) + ToSet(n), Passed(Below(tree, key), key) + ToSet(n);
    PassedLevel(tree, key, ToSet(n));
    DirtiedTogether(s, s2, s3, s4, a, p, d);
  }

  lemma DirtiedTogether(s: CacheSpec.State, s2: CacheSpec.State, s3: CacheSpec.State, s4: CacheSpec.State, a: GAddr,
                        p: set<GAddr>, d: set<GAddr>)
    requires Dirties(s, s2, {a}) && Dirties(s2, s3, d) && Touching(s3, s4, a)
    requires Onward(s2, s3, p) && d <= p && Refs(s2, a) > 0
    ensures Dirties(s, s4, {a} + d)
  {
    hide Dirties, Refs, Onward;
    DirtiesTransitive(s, s2, s3, {a}, d, p);
    forall o | o in {a} + d
      ensures Refs(s3, o) > 0
    {
      OnwardRefs(s2, s3, p, o);
    }
    var none: set<GAddr> := {};
    DirtiesTransitive(s, s3, s4, {a} + d, {a}, none);
    assert {a} + d + {a} == {a} + d;
  }

  lemma PassedLevel(tree: Tree<GAddr>, key: int, made: set<GAddr>)
    requires tree.Node? && key != tree.key
    ensures Passed(tree, key) + made == {tree.node} + (Passed(Below(tree, key), key) + made)
    ensures Passed(Below(tree, key), key) + made <= Path(Below(tree, key), key) + made
  {
    PassedOnPath(Below(tree, key), key);
  }

  lemma {:induction false} PassedOnPath(tree: Tree<GAddr>, key: int)
    ensures Passed(tree, key) <= Path(tree, key)
  {
    if tree.Node? && key != tree.key {
      PassedOnPath(Below(tree, key), key);
    }
  }

  lemma StoredLink(s: CacheSpec.State, s': CacheSpec.State, a: GAddr)
    requires Touching(s, s', a)
    ensures Onward(s, s', {}) && s'.alloc == s.alloc && s'.objs == s.objs
  {
  }

  /** After the call below, which requested, evicted and perhaps made nodes, the
      pointer to the parent is still good. */
  lemma StillLinked(s: CacheSpec.State, s2: CacheSpec.State, s3: CacheSpec.State, t: nat, ptr: int, a: GAddr, key: int,
                    tree: Tree<GAddr>, child: GAddr, n: Option<GAddr>)
    requires CanInsert(s, t, a, key, tree) && tree.Node? && key != tree.key && Visited(s, s2, a)
    requires Inv(s3) && Inserted(s2, s3, t, child, key, Below(tree, key), n)
    requires PointsTo(s2, ptr, a) && Dirty(s2, a)
    ensures PointsTo(s3, ptr, a) && Dirty(s3, a) && IsLink(Going(tree, key)) && a == tree.node
    ensures a in s3.objs && IsNode(Seen(s3), t, a) && Representable(child)
  {
    hide Inv, View, PointsTo, Dirty, Refs, Held, KeyOf, LinkOf, Onward, Rep, Distinct, Find, Path, Insert;
    hide NodeType, Room, Slice, SameBut, After, Parent, Nodes, Going, Below;
    OnwardType(s, s2, {a}, t);
    OnwardType(s2, s3, Path(Below(tree, key), key) + ToSet(n), t);
    PointerStays(s2, s3, Path(Below(tree, key), key) + ToSet(n), ptr, a);
    Level(Seen(s), t, a, tree, key);
    PathIsInside(Below(tree, key), key);
    SameButAt(Seen(s2), Seen(s3), Parent(Below(tree, key), key), a);
    AfterIsNode(Below(tree, key), key, n);
    RepRoot(Seen(s3), t, child, After(Below(tree, key), key, n));
    assert child in Nodes(After(Below(tree, key), key, n)) by { RootIsNode(After(Below(tree, key), key, n)); }
    NodesAreObjects(Seen(s3), t, child, After(Below(tree, key), key, n));
    ObjectRepresentable(s3, child);
  }

  lemma SameButAt(v: Memory, v': Memory, changed: Option<GAddr>, a: GAddr)
    requires SameBut(v, v', changed) && a in v && changed != Some(a)
    ensures a in v' && v'[a] == v[a]
  {
  }

  lemma RootIsNode(tree: Tree<GAddr>)
    requires tree.Node?
    ensures tree.node in Nodes(tree)
  {
  }

  lemma AfterIsNode(tree: Tree<GAddr>, key: int, n: Option<GAddr>)
    requires n.Some? <==> Find(tree, key).None?
    ensures After(tree, key, n).Node?
  {
  }

  lemma ObjectRepresentable(s: CacheSpec.State, o: GAddr)
    requires Inv(s) && o in s.objs
    ensures Representable(o)
  {
    ObjectIsBase(s, o);
    PoolBounds(s);
  }

  // search

  /** `search`: the loop ends at the node that the native search finds, leaves visible
      memory as it was, and makes no slot dirty. */
  method SearchRemote(c: ComputeContext, t: nat, node: GAddr, key: int32, ghost tree: Tree<GAddr>)
    returns (found: GAddr)
    requires Ready(c, t) && CanSearch(c.State(), t, node, key, tree)
    modifies c.Repr
    ensures Ready(c, t) && c.Repr == old(c.Repr)
    ensures Searched(old(c.State()), c.State(), key, tree, found)
    ensures found != GADDR_NULL ==>
      found in Seen(old(c.State())) && HasKey(Seen(old(c.State()))[found], key)
    ensures Dirties(old(c.State()), c.State(), {})
  {
    hide Ready, ComputeContext.Valid, ComputeContext.HeapOk, ComputeContext.State, Inv, View, Onward, HasKey;
    hide Dirties, Room, Refs, Held, Distinct, Path, LeftTurns, Find, Rep;
    ghost var s := c.State();
    found := SearchLoop(c, t, node, key, false, tree);
    if found != GADDR_NULL {
      FoundHasKey(Seen(s), t, node, tree, key);
    }
  }

  /** The other `search`, which takes the pointer to the left link for writing: it makes
      dirty just the nodes where it goes left, and they still hold what they held. */
  method SearchMarking(c: ComputeContext, t: nat, node: GAddr, key: int32, ghost tree: Tree<GAddr>)
    returns (found: GAddr)
    requires Ready(c, t) && CanSearch(c.State(), t, node, key, tree)
    modifies c.Repr
    ensures Ready(c, t) && c.Repr == old(c.Repr)
    ensures Searched(old(c.State()), c.State(), key, tree, found)
    ensures found != GADDR_NULL ==>
      found in Seen(old(c.State())) && HasKey(Seen(old(c.State()))[found], key)
    ensures Dirties(old(c.State()), c.State(), LeftTurns(tree, key))
  {
    hide Ready, ComputeContext.Valid, ComputeContext.HeapOk, ComputeContext.State, Inv, View, Onward, HasKey;
    hide Dirties, Room, Refs, Held, Distinct, Path, LeftTurns, Find, Rep;
    ghost var s := c.State();
    found := SearchLoop(c, t, node, key, true, tree);
    if found != GADDR_NULL {
      FoundHasKey(Seen(s), t, node, tree, key);
    }
  }

  /** The loop of both searches; one of them marks a node when it goes left. */
  method SearchLoop(c: ComputeContext, t: nat, node: GAddr, key: int32, marking: bool, ghost tree: Tree<GAddr>)
    returns (found: GAddr)
    requires Ready(c, t) && CanSearch(c.State(), t, node, key, tree)
    modifies c.Repr
    ensures Ready(c, t) && c.Repr == old(c.Repr)
    ensures Searched(old(c.State()), c.State(), key, tree, found)
    ensures Dirties(old(c.State()), c.State(), Marks(tree, key, marking))
  {
    hide Ready, ComputeContext.Valid, ComputeContext.HeapOk, ComputeContext.State, Inv, View, Onward, Touching;
    hide TokenOf, PointsTo, Dirty, Cached, Refs, Held, NodeType, KeyOf, LinkOf, IsNode, Dirties;
    hide CanSearch, Searching, Searched, Rep, Visited, Room, Distinct, Find, Path, Marks, Marked;
    ghost var s := c.State();
    var a := node;
    ghost var sub, marked := tree, {};
    MarkedStarts(s, key, tree, marking);
    SearchStarts(s, t, a, key, tree);
    CanSearchParts(s, t, a, key, tree);
    while a != GADDR_NULL
      invariant Ready(c, t) && c.Repr == old(c.Repr)
      invariant Searching(s, c.State(), t, a, key, tree, sub) && (a == GADDR_NULL <==> sub.Leaf?)
      invariant Marked(s, c.State(), key, tree, sub, marking, marked)
      decreases sub
    {
      ghost var s1 := c.State();
      SearchingParts(s, s1, t, a, key, tree, sub);
      var token, nodeKey := Visit(c, t, a);
      MarkedStay(s, s1, c.State(), a, key, tree, sub, marking, marked);
      if nodeKey == key {
        SearchFinds(s, s1, c.State(), t, a, key, tree, sub);
        NotMarked(s, c.State(), key, tree, sub, marking, marked);
        return a;
      }
      a, marked := Descend(c, t, token, a, key, nodeKey, marking, s, s1, tree, sub, marked);
      sub := Below(sub, key);
      SearchingParts(s, c.State(), t, a, key, tree, sub);
    }
    SearchMisses(s, c.State(), t, key, tree);
    NotMarked(s, c.State(), key, tree, sub, marking, marked);
    return GADDR_NULL;
  }

  /** One step down. */
  method Descend(c: ComputeContext, t: nat, token: Token, a: GAddr, key: int32, nodeKey: int32, marking: bool,
                 ghost s: CacheSpec.State, ghost s1: CacheSpec.State, ghost tree: Tree<GAddr>, ghost sub: Tree<GAddr>,
                 ghost marked: set<GAddr>)
    returns (next: GAddr, ghost marked': set<GAddr>)
    requires a.typeId == t && Ready(c, t) && Inv(s) && Inv(s1) && Searching(s, s1, t, a, key, tree, sub)
    requires sub.Node? && key != sub.key && nodeKey == sub.key
    requires Visited(s1, c.State(), a) && TokenOf(c.State(), token, a)
    requires Marked(s, c.State(), key, tree, sub, marking, marked) && a == sub.node
    modifies c.Repr
    ensures Ready(c, t) && c.Repr == old(c.Repr)
    ensures Searching(s, c.State(), t, next, key, tree, Below(sub, key))
    ensures Marked(s, c.State(), key, tree, Below(sub, key), marking, marked')
  {
    hide Ready, ComputeContext.Valid, ComputeContext.HeapOk, ComputeContext.State, Inv, View, Onward, Touching;
    hide TokenOf, PointsTo, Dirty, Cached, Refs, Held, NodeType, KeyOf, LinkOf, IsNode, Dirties;
    hide CanSearch, Searching, Searched, Rep, Visited, Room, Distinct, Find, Path, Marked;
    var ptr := Access(c, token, a);
    ghost var s2 := c.State();
    marked' := marked;
    NotMarked(s, s2, key, tree, sub, marking, marked);
    if key < nodeKey {
      if marking {
        ptr := AccessMut(c, token, a);
        MarkedToo(s, s2, c.State(), ptr, a, key, tree, sub, marked);
        marked' := marked + {a};
        VisitedAndTouched(s1, s2, c.State(), a);
      }
      SearchGoesOn(s, s1, c.State(), t, a, key, tree, sub);
      next := LoadLink(c, t, ptr, LEFT_AT, a);
    } else {
      SearchGoesOn(s, s1, c.State(), t, a, key, tree, sub);
      next := LoadLink(c, t, ptr, RIGHT_AT, a);
    }
  }

  /** The nodes that a search makes dirty. */
  ghost function Marks(tree: Tree<GAddr>, key: int, marking: bool): set<GAddr> {
    if marking then LeftTurns(tree, key) else {}
  }

  /** On the way: what was made dirty so far is held, and is dirty still. */
  ghost predicate Marked(s: CacheSpec.State, s1: CacheSpec.State, key: int, tree: Tree<GAddr>, sub: Tree<GAddr>,
                         marking: bool, d: set<GAddr>) {
    && Dirties(s, s1, d) && (forall o :: o in d ==> Refs(s1, o) > 0)
    && Marks(tree, key, marking) == d + Marks(sub, key, marking)
  }

  lemma MarkedStarts(s: CacheSpec.State, key: int, tree: Tree<GAddr>, marking: bool)
    ensures Marked(s, s, key, tree, tree, marking, {})
  {
    hide Refs, Dirty;
    NothingDirtied(s);
  }

  lemma MarkedStay(s: CacheSpec.State, s1: CacheSpec.State, s2: CacheSpec.State, a: GAddr, key: int,
                   tree: Tree<GAddr>, sub: Tree<GAddr>, marking: bool, d: set<GAddr>)
    requires Marked(s, s1, key, tree, sub, marking, d) && Inv(s1) && Visited(s1, s2, a) && Dirties(s1, s2, {})
    ensures Marked(s, s2, key, tree, sub, marking, d)
  {
    hide Dirties, Refs, Inv, View;
    DirtiesTransitive(s, s1, s2, d, {}, {a});
    assert d + {} == d;
  }

  lemma MarkedToo(s: CacheSpec.State, s1: CacheSpec.State, s2: CacheSpec.State, ptr: int, a: GAddr, key: int,
                  tree: Tree<GAddr>, sub: Tree<GAddr>, d: set<GAddr>)
    requires Marked(s, s1, key, tree, sub, true, d) && sub.Node? && key < sub.key && a == sub.node
    requires Touching(s1, s2, a) && PointsTo(s2, ptr, a)
    ensures Marked(s, s2, key, tree, Below(sub, key), true, d + {a})
  {
    hide Dirties, Refs;
    DirtiesTransitive(s, s1, s2, d, {a}, {});
  }

  lemma NotMarked(s: CacheSpec.State, s1: CacheSpec.State, key: int, tree: Tree<GAddr>, sub: Tree<GAddr>,
                  marking: bool, d: set<GAddr>)
    requires Marked(s, s1, key, tree, sub, marking, d)
    ensures sub.Leaf? || key == sub.key ==> Dirties(s, s1, Marks(tree, key, marking))
    ensures sub.Node? && (key > sub.key || (key < sub.key && !marking)) ==>
      Marked(s, s1, key, tree, Below(sub, key), marking, d)
  {
    hide Dirties, Refs;
    assert d + {} == d;
  }

  lemma SearchingParts(s: CacheSpec.State, s1: CacheSpec.State, t: nat, a: GAddr, key: int,
                       tree: Tree<GAddr>, sub: Tree<GAddr>)
    requires Inv(s) && Searching(s, s1, t, a, key, tree, sub)
    ensures Inv(s1) && (a == GADDR_NULL <==> sub.Leaf?)
    ensures sub.Node? ==>
      && a == sub.node && IsNode(Seen(s1), t, a) && KeyOf(Seen(s1)[a]) == sub.key && a in s1.objs && a.typeId == t
      && |Held(s1, t) + {a}| <= 256 && Refs(s1, a) + 1 < RC_LIMIT
  {
    hide Inv, Refs, Held, KeyOf, Rep, Distinct, Room, Onward, Find, Path;
    CanSearchParts(s1, t, a, key, sub);
  }
}
