/** Leaf contents against the abstract map: what a block compare-and-swap, an item write, a
    lock bit and a leaf split do to them, and when a node write is safe for readers. */
module FaunusContents {
  import opened Bits
  import opened FaunusNodes
  import opened FaunusStructure

  // ---- Used blocks ------------------------------------------------------------------------

  lemma {:induction false} UsedUpdate(s: seq<Block>, i: nat, b: Block)
    requires i < |s|
    ensures Used(s[i := b]) == Used(s) + (if b.free then 0 else 1) - (if s[i].free then 0 else 1)
  {
    var n := |s| - 1;
    if i == n {
      assert s[i := b][..n] == s[..n];
    } else {
      assert s[i := b][..n] == s[..n][i := b];
      UsedUpdate(s[..n], i, b);
    }
  }

  lemma {:induction false} UsedSame(s: seq<Block>, t: seq<Block>)
    requires |s| == |t| && forall i :: 0 <= i < |s| ==> s[i].free == t[i].free
    ensures Used(s) == Used(t)
  {
    if s != [] {
      UsedSame(s[..|s| - 1], t[..|t| - 1]);
    }
  }

  lemma {:induction false} UsedPrefix(s: seq<Block>, n: nat)
    requires n <= |s| && forall i :: 0 <= i < |s| ==> (s[i].free <==> n <= i)
    ensures Used(s) == n
  {
    if s != [] {
      UsedPrefix(s[..|s| - 1], if n == |s| then n - 1 else n);
    }
  }

  lemma {:induction false} FreeSlot(s: seq<Block>)
    ensures Used(s) == |s| <==> forall i :: 0 <= i < |s| ==> !s[i].free
  {
    if s != [] {
      FreeSlot(s[..|s| - 1]);
      assert forall i :: 0 <= i < |s| - 1 ==> s[..|s| - 1][i] == s[i];
    }
  }

  // ---- Lock bits --------------------------------------------------------------------------

  /** Equal but for lock bits and the lock word. */
  ghost predicate SameButLocks(n: Node, l: Node) {
    && n.Leaf? && l.Leaf? && n.lo == l.lo && n.hi == l.hi && |n.blocks| == |l.blocks|
    && forall i :: 0 <= i < |n.blocks| ==> n.blocks[i].(locked := l.blocks[i].locked) == l.blocks[i]
  }

  lemma LocksKeepExact(items: map<Addr, Item>, m: map<Key, Value>, n: Node, l: Node)
    requires SameButLocks(n, l) && Exact(items, m, n)
    ensures Exact(items, m, l) && Used(l.blocks) == Used(n.blocks)
  {
    UsedSame(n.blocks, l.blocks);
    forall i | 0 <= i < |l.blocks|
      ensures BlockOk(items, m, l, i)
    {
      assert BlockOk(items, m, n, i);
    }
    assert forall i: nat, k :: Holds(items, l, i, k) <==> Holds(items, n, i, k);
    forall k | k in m && l.Covers(k)
      ensures Present(items, l, k)
    {
      assert Present(items, n, k);
      var i :| Holds(items, n, i, k);
      assert Holds(items, l, i, k);
    }
  }

  // ---- Items ------------------------------------------------------------------------------

  lemma NewItemKeepsExact(items: map<Addr, Item>, m: map<Key, Value>, n: Node, a: Addr, it: Item)
    requires a !in items && Exact(items, m, n)
    ensures Exact(items[a := it], m, n)
  {
    var more := items[a := it];
    if n.Leaf? {
      forall i | 0 <= i < |n.blocks|
        ensures BlockOk(more, m, n, i)
      {
        assert BlockOk(items, m, n, i);
      }
      forall i: nat, k | Holds(more, n, i, k)
        ensures Holds(items, n, i, k)
      {
        assert BlockOk(items, m, n, i);
      }
      forall k | k in m && n.Covers(k)
        ensures Present(more, n, k)
      {
        assert Present(items, n, k);
        var i: nat :| Holds(items, n, i, k);
        assert Holds(more, n, i, k);
      }
    }
  }

  ghost predicate Unreferenced(n: Node, a: Addr) {
    n.Leaf? ==> forall i :: 0 <= i < |n.blocks| && !n.blocks[i].free ==> n.blocks[i].addr != a
  }

  lemma FreedItemKeepsExact(items: map<Addr, Item>, m: map<Key, Value>, n: Node, a: Addr)
    requires Exact(items, m, n) && Unreferenced(n, a)
    ensures Exact(items - {a}, m, n)
  {
    if n.Leaf? {
      forall i | 0 <= i < |n.blocks|
        ensures BlockOk(items - {a}, m, n, i)
      {
        assert BlockOk(items, m, n, i);
      }
      assert forall i: nat, k :: Holds(items - {a}, n, i, k) <==> Holds(items, n, i, k);
      forall k | k in m && n.Covers(k)
        ensures Present(items - {a}, n, k)
      {
        assert Present(items, n, k);
        var i :| Holds(items, n, i, k);
        assert Holds(items - {a}, n, i, k);
      }
    }
  }

  // ---- Compare-and-swap on a block ----------------------------------------------------------

  /** The leaf after block `i` was set to point to the item of `key` at `a`. */
  function WithBlock(n: Node, i: nat, key: Key, a: Addr): Node
    requires n.Leaf? && i < |n.blocks|
  {
    n.(blocks := n.blocks[i := Block(Fp(key), a, false, false)])
  }

  /** A leaf without the key keeps its contents when the abstract map gets the key. */
  lemma OtherLeafExact(items: map<Addr, Item>, m: map<Key, Value>, n: Node, key: Key, value: Value)
    requires Exact(items, m, n) && !n.Covers(key)
    ensures Exact(items, m[key := value], n)
  {
    var m' := m[key := value];
    if n.Leaf? {
      forall i | 0 <= i < |n.blocks|
        ensures BlockOk(items, m', n, i)
      {
        assert BlockOk(items, m, n, i);
      }
    }
  }

  /** The insert CAS: a free block of the leaf of an absent key. */
  lemma InsertExact(items: map<Addr, Item>, m: map<Key, Value>, n: Node, i: nat, a: Addr)
    requires n.Leaf? && i < |n.blocks| && n.blocks[i].free && Exact(items, m, n)
    requires a in items && n.Covers(items[a].key) && items[a].key !in m
    ensures Exact(items, m[items[a].key := items[a].value], WithBlock(n, i, items[a].key, a))
  {
    var Item(key, value) := items[a];
    var l := WithBlock(n, i, key, a);
    var m' := m[key := value];
    forall j | 0 <= j < |l.blocks|
      ensures BlockOk(items, m', l, j)
    {
      assert BlockOk(items, m, n, j);
    }
    forall j, k | Holds(items, l, j, k)
      ensures if j == i then k == key else Holds(items, n, j, k) && k != key
    {
      assert BlockOk(items, m, n, j);
    }
    assert Holds(items, l, i, key);
    forall k | k in m' && l.Covers(k)
      ensures Present(items, l, k)
    {
      if k != key {
        assert Present(items, n, k);
        var j: nat :| Holds(items, n, j, k);
        assert Holds(items, l, j, k);
      }
    }
  }

  /** The update CAS: the block of a present key. */
  lemma UpdateExact(items: map<Addr, Item>, m: map<Key, Value>, n: Node, i: nat, a: Addr)
    requires n.Leaf? && Exact(items, m, n)
    requires a in items && Holds(items, n, i, items[a].key)
    ensures Exact(items, m[items[a].key := items[a].value], WithBlock(n, i, items[a].key, a))
  {
    var Item(key, value) := items[a];
    var l := WithBlock(n, i, key, a);
    var m' := m[key := value];
    assert BlockOk(items, m, n, i);
    forall j | 0 <= j < |l.blocks|
      ensures BlockOk(items, m', l, j)
    {
      assert BlockOk(items, m, n, j);
      assert j != i && !n.blocks[j].free ==> !Holds(items, n, j, key);
      if j != i && !n.blocks[j].free {
        assert Holds(items, n, j, items[n.blocks[j].addr].key);
      }
    }
    assert forall j, k :: Holds(items, l, j, k) <==> Holds(items, n, j, k);
    forall k | k in m' && l.Covers(k)
      ensures Present(items, l, k)
    {
      if k == key {
        assert Holds(items, l, i, k);
      } else {
        assert Present(items, n, k);
        var j: nat :| Holds(items, n, j, k);
        assert Holds(items, l, j, k);
      }
    }
  }

  // ---- Splitting a leaf ---------------------------------------------------------------------

  /** A used block with the key read through its pointer. */
  datatype Entry = Entry(key: Key, block: Block)

  ghost predicate Sorted(es: seq<Entry>) {
    forall i, j :: 0 <= i < j < |es| ==> es[i].key < es[j].key
  }

  ghost predicate EntryFor(es: seq<Entry>, k: Key) {
    exists j :: 0 <= j < |es| && es[j].key == k
  }

  /** The entry is one of the first `upto` blocks of the leaf. */
  ghost predicate FromBlock(items: map<Addr, Item>, n: Node, upto: nat, e: Entry) {
    exists i: nat :: i < upto && Holds(items, n, i, e.key) && n.blocks[i] == e.block
  }

  /** The sorted entries are exactly the used blocks among the first `upto`. */
  ghost predicate Gathered(items: map<Addr, Item>, n: Node, upto: nat, es: seq<Entry>) {
    && Sorted(es)
    && (forall j :: 0 <= j < |es| ==> FromBlock(items, n, upto, es[j]))
    && (forall i: nat, k :: Holds(items, n, i, k) && i < upto ==> EntryFor(es, k))
  }

  /** The leaf holds the blocks of `es[from..to]`, unlocked and in order, then free blocks. */
  ghost predicate PartOf(es: seq<Entry>, from: nat, to: nat, l: Node) {
    && l.Leaf? && from <= to <= |es| && to - from <= |l.blocks|
    && (forall i :: 0 <= i < to - from ==> l.blocks[i] == es[from + i].block.(locked := false))
    && (forall i :: to - from <= i < |l.blocks| ==> l.blocks[i].free)
  }

  lemma PartHolds(items: map<Addr, Item>, n: Node, es: seq<Entry>, from: nat, to: nat, l: Node)
    requires n.Leaf? && Gathered(items, n, |n.blocks|, es) && PartOf(es, from, to, l)
    ensures forall j :: from <= j < to ==> Holds(items, l, j - from, es[j].key)
    ensures forall i: nat, k :: Holds(items, l, i, k) ==> i < to - from && k == es[from + i].key
    ensures Used(l.blocks) == to - from
  {
    forall j | from <= j < to
      ensures Holds(items, l, j - from, es[j].key)
    {
      assert FromBlock(items, n, |n.blocks|, es[j]);
      assert l.blocks[j - from] == es[from + (j - from)].block.(locked := false);
    }
    forall i: nat, k | Holds(items, l, i, k)
      ensures i < to - from && k == es[from + i].key
    {
      assert Holds(items, l, (from + i) - from, es[from + i].key);
    }
    forall i | 0 <= i < |l.blocks|
      ensures l.blocks[i].free <==> to - from <= i
    {
      if i < to - from {
        assert Holds(items, l, (from + i) - from, es[from + i].key);
      }
    }
    UsedPrefix(l.blocks, to - from);
  }

  /** A part of the entries makes an exact leaf for the part of the fence its keys lie in. */
  lemma PartExact(items: map<Addr, Item>, m: map<Key, Value>, n: Node, es: seq<Entry>, from: nat, to: nat, l: Node)
    requires n.Leaf? && Exact(items, m, n) && Gathered(items, n, |n.blocks|, es) && PartOf(es, from, to, l)
    requires n.lo <= l.lo && l.hi <= n.hi
    requires forall j :: 0 <= j < |es| ==> (l.Covers(es[j].key) <==> from <= j < to)
    ensures Exact(items, m, l)
  {
    PartHolds(items, n, es, from, to, l);
    forall i | 0 <= i < |l.blocks|
      ensures BlockOk(items, m, l, i)
    {
      if i < to - from {
        var e := es[from + i];
        assert FromBlock(items, n, |n.blocks|, e);
        var j: nat :| Holds(items, n, j, e.key) && n.blocks[j] == e.block;
        assert BlockOk(items, m, n, j);
      }
    }
    forall k | k in m && l.Covers(k)
      ensures Present(items, l, k)
    {
      assert Present(items, n, k);
      var i :| Holds(items, n, i, k);
      assert EntryFor(es, k);
      var j :| 0 <= j < |es| && es[j].key == k;
      assert Holds(items, l, j - from, k);
    }
  }

  // ---- Node writes and readers --------------------------------------------------------------

  ghost predicate OwnWeakLinks(h: Memory, n: Node)
    requires n.Inner? ==> n.last < |n.keys| && n.last < |n.kids|
  {
    n.Inner? ==> forall i :: 0 <= i <= n.last ==> WeakLinkOk(h, n, i)
  }

  lemma OwnLinksAreWeak(h: Memory, n: Node)
    requires n.Inner? ==> n.last < |n.keys| && n.last < |n.kids|
    requires OwnLinks(h, n)
    ensures OwnWeakLinks(h, n)
  {
    if n.Inner? {
      forall i | 0 <= i <= n.last
        ensures WeakLinkOk(h, n, i)
      {
        assert LinkOk(h, NoSplit, n, i);
      }
    }
  }

  /** A node write keeps readers safe when the node is new, or keeps its level and lower fence. */
  lemma PutReaderSafe(cfg: Config, h: Memory, m: map<Key, Value>, a: Addr, n: Node)
    requires ReaderSafe(cfg, h, m) && Shape(cfg, n) && OwnWeakLinks(h, n) && Exact(h.items, m, n)
    requires a in h.nodes ==> n.Level() == h.nodes[a].Level() && n.lo == h.nodes[a].lo && n.hi <= h.nodes[a].hi
    ensures ReaderSafe(cfg, Put(h, a, n), m)
    ensures Evolves(h, Put(h, a, n))
  {
    var g := Put(h, a, n);
    assert Shapes(cfg, g);
    forall b, i | b in g.nodes && g.nodes[b].Inner? && 0 <= i <= g.nodes[b].last
      ensures WeakLinkOk(g, g.nodes[b], i)
    {
      assert WeakLinkOk(h, g.nodes[b], i);
    }
  }

  // ---- The whole invariant ------------------------------------------------------------------

  ghost predicate TreeInv(cfg: Config, h: Memory, m: map<Key, Value>, p: Pending) {
    Structure(cfg, h, p) && AllExact(h, m) && KeysBounded(cfg, m)
  }

  lemma InvReaderSafe(cfg: Config, h: Memory, m: map<Key, Value>, p: Pending)
    requires TreeInv(cfg, h, m, p)
    ensures ReaderSafe(cfg, h, m)
  {
    StructureGivesWeakLinks(cfg, h, p);
  }

  /** A node write that keeps fence, level and links keeps the structure. */
  lemma PutStructure(cfg: Config, h: Memory, p: Pending, a: Addr, n: Node)
    requires Structure(cfg, h, p) && a in h.nodes && Shape(cfg, n)
    requires n.lo == h.nodes[a].lo && n.hi == h.nodes[a].hi && n.Level() == h.nodes[a].Level()
    requires n.Inner? ==> forall i :: 0 <= i <= n.last ==> LinkOk(h, p, n, i)
    ensures Structure(cfg, Put(h, a, n), p)
  {
    hide Links, Shapes, Shape, Disjoint, TopOk, PendingOk;
    PutLinks(cfg, h, p, a, n);
    PutDisjoint(h, a, n);
    PutTop(cfg, h, p, a, n);
  }

  lemma PutDisjoint(h: Memory, a: Addr, n: Node)
    requires Disjoint(h) && a in h.nodes
    requires n.lo == h.nodes[a].lo && n.hi == h.nodes[a].hi && n.Level() == h.nodes[a].Level()
    ensures Disjoint(Put(h, a, n))
  {
    var g := Put(h, a, n);
    forall x, y | x in g.nodes && y in g.nodes && x != y && g.nodes[x].Level() == g.nodes[y].Level()
      ensures Apart(g.nodes[x], g.nodes[y])
    {
      assert Apart(h.nodes[x], h.nodes[y]);
    }
  }

  lemma PutTop(cfg: Config, h: Memory, p: Pending, a: Addr, n: Node)
    requires TopOk(cfg, h, p) && PendingOk(h, p) && a in h.nodes
    requires n.lo == h.nodes[a].lo && n.hi == h.nodes[a].hi && n.Level() == h.nodes[a].Level()
    ensures TopOk(cfg, Put(h, a, n), p) && PendingOk(Put(h, a, n), p)
  {
  }

  lemma PutLinks(cfg: Config, h: Memory, p: Pending, a: Addr, n: Node)
    requires Shapes(cfg, h) && Links(cfg, h, p) && a in h.nodes && Shape(cfg, n)
    requires n.lo == h.nodes[a].lo && n.hi == h.nodes[a].hi && n.Level() == h.nodes[a].Level()
    requires n.Inner? ==> forall i :: 0 <= i <= n.last ==> LinkOk(h, p, n, i)
    ensures Shapes(cfg, Put(h, a, n)) && Links(cfg, Put(h, a, n), p)
  {
    var g := Put(h, a, n);
    assert Shapes(cfg, g);
    forall b, i | b in g.nodes && g.nodes[b].Inner? && 0 <= i <= g.nodes[b].last
      ensures LinkOk(g, p, g.nodes[b], i)
    {
      assert LinkOk(h, p, g.nodes[b], i);
    }
  }

  /** Changing the lock word of any node keeps the structure. */
  lemma PutLockStructure(cfg: Config, h: Memory, p: Pending, a: Addr, lock: nat)
    requires Structure(cfg, h, p) && a in h.nodes
    ensures Structure(cfg, Put(h, a, Relock(h.nodes[a], lock)), p)
  {
    var o := h.nodes[a];
    var n := o.(lock := lock);
    assert Shape(cfg, o);
    assert Shape(cfg, n);
    if n.Inner? {
      forall i | 0 <= i <= n.last
        ensures LinkOk(h, p, n, i)
      {
        assert LinkOk(h, p, o, i);
      }
    }
    PutStructure(cfg, h, p, a, n);
  }

  /** Where the tree is settled, exactly one leaf of any address covers a key. */
  lemma OneLeaf(h: Memory, a: Addr, b: Addr, k: Key)
    requires Disjoint(h) && a in h.nodes && b in h.nodes && h.nodes[a].Level() == h.nodes[b].Level()
    requires h.nodes[a].Covers(k) && h.nodes[b].Covers(k)
    ensures a == b
  {
  }
}
