/** Node layouts of the Faunus B+Tree, remote memory as a map from addresses to nodes and
    items, and the invariant of the tree. */
module FaunusNodes {
  import opened Bits

  type Key = nat
  type Value = nat
  type Addr = nat

  /** `bits` is the base-two logarithm of the branch factor, `watermark` the number of used
      blocks above which a leaf is split, and `maxKey` the largest key, which clients do not use. */
  datatype Config = Config(bits: nat, watermark: nat, maxKey: Key) {
    function Bf(): nat { Pow2(bits) }
    predicate Ok() { 2 <= bits && watermark <= Bf() && 0 < maxKey }
    /** The most blocks a leaf uses between two operations. */
    function Cap(): nat { if watermark < Bf() / 2 then Bf() / 2 else watermark }
  }

  lemma BfFacts(cfg: Config)
    requires cfg.Ok()
    ensures cfg.Bf() >= 4 && cfg.Bf() % 2 == 0
  {
    assert Pow2(cfg.bits) == 2 * Pow2(cfg.bits - 1) && Pow2(cfg.bits - 1) == 2 * Pow2(cfg.bits - 2);
  }

  datatype Item = Item(key: Key, value: Value)

  /** An unpacked KVBlock: fingerprint, item address, free bit and lock bit. */
  datatype Block = Block(fp: nat, addr: Addr, free: bool, locked: bool)

  /** Addresses and fingerprints that a packed block has room for. */
  const ADDRS := 0x4_0000_0000_0000
  const FPS := 0x1000

  /** Fetch-and-add of +1 and of -1 on a packed block: lock bit, free bit, address and fingerprint, from
      the lowest bit up, with carry and borrow. */
  function FaaUp(b: Block): Block {
    if !b.locked then b.(locked := true)
    else if !b.free then b.(free := true, locked := false)
    else if b.addr + 1 < ADDRS then b.(addr := b.addr + 1, free := false, locked := false)
    else Block((b.fp + 1) % FPS, 0, false, false)
  }

  function FaaDown(b: Block): Block {
    if b.locked then b.(locked := false)
    else if b.free then b.(free := false, locked := true)
    else if b.addr > 0 then b.(addr := b.addr - 1, free := true, locked := true)
    else Block((b.fp + FPS - 1) % FPS, ADDRS - 1, true, true)
  }

  /** Fetch-and-add of -1 on a 64-bit lock word. */
  function Decremented(lock: nat): nat {
    if lock == 0 then 0xFFFF_FFFF_FFFF_FFFF else lock - 1
  }

  /** The number that a packed block is. */
  function Word(b: Block): nat {
    ((b.fp * ADDRS + b.addr) * 2 + if b.free then 1 else 0) * 2 + if b.locked then 1 else 0
  }

  predicate Packable(b: Block) {
    b.fp < 0x1000 && b.addr < 0x4_0000_0000_0000
  }

  lemma WordUp(b: Block)
    requires Packable(b)
    ensures Packable(FaaUp(b)) && Word(FaaUp(b)) == (Word(b) + 1) % 0x1_0000_0000_0000_0000
  {
  }

  lemma WordDown(b: Block)
    requires Packable(b)
    ensures Packable(FaaDown(b)) && Word(FaaDown(b)) == (Word(b) + 0xFFFF_FFFF_FFFF_FFFF) % 0x1_0000_0000_0000_0000
  {
  }

  lemma LastBit(x: nat, y: nat, d: nat, e: nat)
    requires d < 2 && e < 2 && x * 2 + d == y * 2 + e
    ensures x == y && d == e
  {
  }

  lemma FieldsApart(fp: nat, addr: Addr, fp': nat, addr': Addr)
    requires addr < 0x4_0000_0000_0000 && addr' < 0x4_0000_0000_0000
    requires fp * 0x4_0000_0000_0000 + addr == fp' * 0x4_0000_0000_0000 + addr'
    ensures fp == fp' && addr == addr'
  {
  }

  lemma WordsApart(b: Block, c: Block)
    requires Packable(b) && Packable(c) && Word(b) == Word(c)
    ensures b == c
  {
    var f, f' := if b.free then 1 else 0, if c.free then 1 else 0;
    var x, y := b.fp * ADDRS + b.addr, c.fp * ADDRS + c.addr;
    LastBit(x * 2 + f, y * 2 + f', if b.locked then 1 else 0, if c.locked then 1 else 0);
    LastBit(x, y, f, f');
    FieldsApart(b.fp, b.addr, c.fp, c.addr);
  }

  /** Carry and borrow are those of 64-bit addition, and the words are told apart. */
  lemma FetchAddIsAddition(b: Block, c: Block, lock: nat)
    requires Packable(b) && Packable(c) && lock < 0x1_0000_0000_0000_0000
    ensures Packable(FaaUp(b)) && Word(FaaUp(b)) == (Word(b) + 1) % 0x1_0000_0000_0000_0000
    ensures Packable(FaaDown(b)) && Word(FaaDown(b)) == (Word(b) + 0xFFFF_FFFF_FFFF_FFFF) % 0x1_0000_0000_0000_0000
    ensures Word(b) == Word(c) <==> b == c
    ensures Decremented(lock) == (lock + 0xFFFF_FFFF_FFFF_FFFF) % 0x1_0000_0000_0000_0000
  {
    hide Word, FaaUp, FaaDown;
    WordUp(b);
    WordDown(b);
    if Word(b) == Word(c) {
      WordsApart(b, c);
    }
  }

  /** The fence of a node is the half-open interval [lo, hi).  An inner node routes through
      `keys[..last]` and `kids[..last + 1]`; `keys[last]` is a leftover. */
  datatype Node =
    | Leaf(lock: nat, lo: Key, hi: Key, blocks: seq<Block>)
    | Inner(lock: nat, lo: Key, hi: Key, height: nat, last: nat, keys: seq<Key>, kids: seq<Addr>)
  {
    function Level(): nat { if Leaf? then 0 else height }
    predicate Covers(k: Key) { lo <= k < hi }
  }

  datatype Memory = Memory(nodes: map<Addr, Node>, items: map<Addr, Item>, root: Addr)

  // ---- Shapes -----------------------------------------------------------------------------

  ghost predicate LeafShape(cfg: Config, n: Node) {
    n.Leaf? && n.lo < n.hi <= cfg.maxKey && |n.blocks| == cfg.Bf()
  }

  ghost predicate Ascending(keys: seq<Key>, last: nat)
    requires last <= |keys|
  {
    forall i, j :: 0 <= i < j < last ==> keys[i] < keys[j]
  }

  /** Separators ascend strictly inside the fence; the leftover key in slot `last` is the
      smallest key or the upper fence, and the slots after it hold the smallest key. */
  ghost predicate RoomyShape(size: nat, maxKey: Key, n: Node) {
    && n.Inner? && n.lo < n.hi <= maxKey && n.height >= 1
    && 1 <= n.last < size && |n.keys| == |n.kids| == size
    && Ascending(n.keys, n.last)
    && (forall i :: 0 <= i < n.last ==> n.lo < n.keys[i] < n.hi)
    && (n.keys[n.last] == 0 || n.keys[n.last] == n.hi)
    && (forall i :: n.last < i < size ==> n.keys[i] == 0)
  }

  ghost predicate InnerShape(cfg: Config, n: Node) {
    RoomyShape(cfg.Bf(), cfg.maxKey, n)
  }

  ghost predicate Shape(cfg: Config, n: Node) {
    if n.Leaf? then LeafShape(cfg, n) else InnerShape(cfg, n)
  }

  ghost predicate Shapes(cfg: Config, h: Memory) {
    forall a :: a in h.nodes ==> Shape(cfg, h.nodes[a])
  }

  // ---- Routing ----------------------------------------------------------------------------

  /** Index of the first separator above `k`, or the number of separators. */
  function RouteFrom(keys: seq<Key>, last: nat, k: Key, i: nat): (r: nat)
    requires i <= last <= |keys|
    ensures i <= r <= last
    ensures r < last ==> k < keys[r]
    ensures forall j :: i <= j < r ==> keys[j] <= k
    decreases last - i
  {
    if i == last then last else if k < keys[i] then i else RouteFrom(keys, last, k, i + 1)
  }

  function Route(n: Node, k: Key): (r: nat)
    requires n.Inner? && n.last < |n.keys|
    ensures r <= n.last
    ensures r < n.last ==> k < n.keys[r]
    ensures forall j :: 0 <= j < r ==> n.keys[j] <= k
  {
    RouteFrom(n.keys, n.last, k, 0)
  }

  /** The child a search for `k` descends to. */
  function Child(n: Node, k: Key): Addr
    requires n.Inner? && n.last < |n.keys| && n.last < |n.kids|
  {
    n.kids[Route(n, k)]
  }

  /** The part of the fence of `n` that child `i` is responsible for. */
  function Lower(n: Node, i: nat): Key
    requires n.Inner? && i <= n.last < |n.keys|
  {
    if i == 0 then n.lo else n.keys[i - 1]
  }

  function Upper(n: Node, i: nat): Key
    requires n.Inner? && i <= n.last < |n.keys|
  {
    if i < n.last then n.keys[i] else n.hi
  }

  lemma RouteBounds(size: nat, maxKey: Key, n: Node, k: Key)
    requires RoomyShape(size, maxKey, n) && n.lo <= k
    ensures Lower(n, Route(n, k)) <= k
    ensures n.Covers(k) ==> k < Upper(n, Route(n, k))
  {
  }

  lemma RouteUnique(size: nat, maxKey: Key, n: Node, k: Key, i: nat)
    requires RoomyShape(size, maxKey, n) && i <= n.last && Lower(n, i) <= k < Upper(n, i)
    ensures Route(n, k) == i
  {
  }

  // ---- Links ------------------------------------------------------------------------------

  /** A split whose new right node is not yet known to the level above: the separator `sep`
      must still enter a node of level `level`. */
  datatype Pending = NoSplit | Split(sep: Key, right: Addr, level: nat)

  /** Child `i` of the inner node `n` lies one level below, starts where its part of the fence
      starts, and ends where it ends, or at the pending separator. */
  ghost predicate LinkOk(h: Memory, p: Pending, n: Node, i: nat)
    requires n.Inner? && i <= n.last && n.last < |n.keys| && n.last < |n.kids|
  {
    && n.kids[i] in h.nodes
    && var c := h.nodes[n.kids[i]];
    && c.Level() + 1 == n.height
    && c.lo == Lower(n, i)
    && (c.hi == Upper(n, i)
        || (p.Split? && n.height == p.level && c.hi == p.sep && p.right in h.nodes
            && Upper(n, i) == h.nodes[p.right].hi))
    && (p.Split? ==> n.kids[i] != p.right)
  }

  ghost predicate Links(cfg: Config, h: Memory, p: Pending)
    requires Shapes(cfg, h)
  {
    forall a, i :: a in h.nodes && h.nodes[a].Inner? && 0 <= i <= h.nodes[a].last ==> LinkOk(h, p, h.nodes[a], i)
  }

  ghost predicate Apart(m: Node, n: Node) {
    m.hi <= n.lo || n.hi <= m.lo
  }

  /** Nodes of one level have disjoint fences. */
  ghost predicate Disjoint(h: Memory) {
    forall a, b :: a in h.nodes && b in h.nodes && a != b && h.nodes[a].Level() == h.nodes[b].Level()
                   ==> Apart(h.nodes[a], h.nodes[b])
  }

  ghost predicate TopOk(cfg: Config, h: Memory, p: Pending) {
    && h.root in h.nodes
    && h.nodes[h.root].lo == 0
    && (forall a :: a in h.nodes ==> h.nodes[a].Level() <= h.nodes[h.root].Level())
    && (if p.Split? && p.level == h.nodes[h.root].Level() + 1 then
          h.nodes[h.root].hi == p.sep && p.right in h.nodes && h.nodes[p.right].hi == cfg.maxKey && p.right != h.root
        else h.nodes[h.root].hi == cfg.maxKey)
  }

  ghost predicate PendingOk(h: Memory, p: Pending) {
    p.Split? ==>
      && p.right in h.nodes
      && h.nodes[p.right].Level() + 1 == p.level
      && h.nodes[p.right].lo == p.sep
      && h.root in h.nodes && p.level <= h.nodes[h.root].Level() + 1
  }

  ghost predicate Structure(cfg: Config, h: Memory, p: Pending) {
    && cfg.Ok()
    && Shapes(cfg, h)
    && Links(cfg, h, p)
    && Disjoint(h)
    && TopOk(cfg, h, p)
    && PendingOk(h, p)
  }

  // ---- Leaf contents ----------------------------------------------------------------------

  /** Block `i` of the leaf is in use and points to an item with key `k`. */
  ghost predicate Holds(items: map<Addr, Item>, n: Node, i: nat, k: Key) {
    n.Leaf? && i < |n.blocks| && !n.blocks[i].free && n.blocks[i].addr in items
    && items[n.blocks[i].addr].key == k
  }

  /** A used block points to a live item of this leaf's fence, carries its fingerprint, and
      the abstract map has its value. */
  ghost predicate BlockOk(items: map<Addr, Item>, m: map<Key, Value>, n: Node, i: nat)
    requires n.Leaf? && i < |n.blocks|
  {
    !n.blocks[i].free ==>
      && n.blocks[i].addr in items
      && var it := items[n.blocks[i].addr];
      && n.Covers(it.key) && n.blocks[i].fp == Fp(it.key)
      && it.key in m && m[it.key] == it.value
  }

  ghost predicate Sound(items: map<Addr, Item>, m: map<Key, Value>, n: Node)
    requires n.Leaf?
  {
    forall i :: 0 <= i < |n.blocks| ==> BlockOk(items, m, n, i)
  }

  ghost predicate Distinct(items: map<Addr, Item>, n: Node)
    requires n.Leaf?
  {
    forall i, j, k :: Holds(items, n, i, k) && Holds(items, n, j, k) ==> i == j
  }

  ghost predicate Present(items: map<Addr, Item>, n: Node, k: Key) {
    exists i :: Holds(items, n, i, k)
  }

  ghost predicate Complete(items: map<Addr, Item>, m: map<Key, Value>, n: Node)
    requires n.Leaf?
  {
    forall k :: k in m && n.Covers(k) ==> Present(items, n, k)
  }

  /** The leaf holds exactly the entries of the abstract map in its fence, each once. */
  ghost predicate Exact(items: map<Addr, Item>, m: map<Key, Value>, n: Node) {
    n.Leaf? ==> Sound(items, m, n) && Distinct(items, n) && Complete(items, m, n)
  }

  ghost predicate AllExact(h: Memory, m: map<Key, Value>) {
    forall a :: a in h.nodes ==> Exact(h.items, m, h.nodes[a])
  }

  function Used(blocks: seq<Block>): (c: nat)
    ensures c <= |blocks|
  {
    if blocks == [] then 0
    else Used(blocks[..|blocks| - 1]) + (if blocks[|blocks| - 1].free then 0 else 1)
  }

  ghost predicate Loads(cfg: Config, h: Memory) {
    forall a :: a in h.nodes && h.nodes[a].Leaf? ==> Used(h.nodes[a].blocks) <= cfg.Cap()
  }

  ghost predicate KeysBounded(cfg: Config, m: map<Key, Value>) {
    forall k :: k in m ==> k < cfg.maxKey
  }

  /** Every block of every leaf is unlocked. */
  ghost predicate BlocksUnlocked(h: Memory) {
    forall a, i :: a in h.nodes && h.nodes[a].Leaf? && 0 <= i < |h.nodes[a].blocks|
                   ==> !h.nodes[a].blocks[i].locked
  }

  /** Every node at level `l` or above is unlocked. */
  ghost predicate UnlockedFrom(h: Memory, l: nat) {
    forall a :: a in h.nodes && h.nodes[a].Level() >= l ==> h.nodes[a].lock == 0
  }

  // ---- What a reader relies on --------------------------------------------------------------

  /** Whatever child of an inner node a search moves to exists, is one level below and does
      not start above the place the search comes from. */
  ghost predicate WeakLinkOk(h: Memory, n: Node, i: nat)
    requires n.Inner? && i <= n.last && n.last < |n.keys| && n.last < |n.kids|
  {
    && n.kids[i] in h.nodes
    && h.nodes[n.kids[i]].Level() + 1 == n.height
    && h.nodes[n.kids[i]].lo == Lower(n, i)
  }

  ghost predicate WeakLinks(cfg: Config, h: Memory)
    requires Shapes(cfg, h)
  {
    forall a, i :: a in h.nodes && h.nodes[a].Inner? && 0 <= i <= h.nodes[a].last ==> WeakLinkOk(h, h.nodes[a], i)
  }

  /** The condition that holds between any two remote memory operations, also in the middle of
      a split: enough for a search for any key to end in a leaf that holds exactly the entry of
      the abstract map, or whose fence does not contain the key. */
  ghost predicate ReaderSafe(cfg: Config, h: Memory, m: map<Key, Value>) {
    && Shapes(cfg, h)
    && WeakLinks(cfg, h)
    && h.root in h.nodes && h.nodes[h.root].lo == 0
    && AllExact(h, m)
  }

  /** Nodes never disappear and keep their level and lower fence; fences only shrink. */
  ghost predicate NodeGrows(g: Memory, h: Memory, a: Addr)
    requires a in g.nodes
  {
    && a in h.nodes
    && h.nodes[a].Level() == g.nodes[a].Level()
    && h.nodes[a].lo == g.nodes[a].lo
    && h.nodes[a].hi <= g.nodes[a].hi
  }

  ghost predicate Evolves(g: Memory, h: Memory) {
    forall a :: a in g.nodes ==> NodeGrows(g, h, a)
  }

  lemma StructureGivesWeakLinks(cfg: Config, h: Memory, p: Pending)
    requires Shapes(cfg, h) && Links(cfg, h, p)
    ensures WeakLinks(cfg, h)
  {
    forall a, i | a in h.nodes && h.nodes[a].Inner? && 0 <= i <= h.nodes[a].last
      ensures WeakLinkOk(h, h.nodes[a], i)
    {
      assert LinkOk(h, p, h.nodes[a], i);
    }
  }
}
