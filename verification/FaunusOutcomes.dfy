/** What an insert of the Faunus tree leaves behind, block by block: which block it writes, when the leaf is
    cut and where, and which item it frees. */
module FaunusOutcomes {
  import opened Bits
  import opened FaunusNodes
  import opened FaunusStructure
  import opened FaunusContents
  import opened FaunusSteps

  ghost predicate LeafFor(h: Memory, a: Addr, k: Key) {
    a in h.nodes && h.nodes[a].Leaf? && h.nodes[a].Covers(k)
  }

  /** A leaf with `n` used blocks is to be cut: it is above the watermark and has enough entries for two. */
  predicate Overloaded(cfg: Config, n: nat) {
    n > cfg.watermark && n > cfg.Bf() / 2
  }

  /** One more entry for the key makes its leaf one to be cut. */
  ghost predicate WillBeCut(cfg: Config, h: Memory, k: Key) {
    exists a :: LeafFor(h, a, k) && Overloaded(cfg, Used(h.nodes[a].blocks) + 1)
  }

  /** Block `i` of the leaf at `a` points to the item of `key` at `x`; no other block or node has changed. */
  ghost predicate BlockStored(h: Memory, g: Memory, a: Addr, i: nat, key: Key, x: Addr) {
    && a in h.nodes && h.nodes[a].Leaf? && i < |h.nodes[a].blocks| && g.root == h.root
    && g.nodes == h.nodes[a := WithBlock(h.nodes[a], i, key, x)]
  }

  /** The leaf at `a` is cut: the lower half of its `n` entries stays, the upper half is in the new leaf at
      `d`, and no other leaf has changed. */
  ghost predicate LeafCutAt(h: Memory, g: Memory, a: Addr, d: Addr, n: nat) {
    && a in h.nodes && h.nodes[a].Leaf? && d !in h.nodes && a in g.nodes && d in g.nodes
    && var o, l, r := h.nodes[a], g.nodes[a], g.nodes[d];
    && l.Leaf? && r.Leaf? && l.lo == o.lo && l.hi == r.lo && r.hi == o.hi
    && Used(l.blocks) == n / 2 && Used(r.blocks) == n - n / 2
    && forall b :: b in h.nodes && b != a && h.nodes[b].Leaf? ==> b in g.nodes && g.nodes[b] == h.nodes[b]
  }

  /** The update: the block of the key has changed, and the item it pointed to is gone. */
  ghost predicate Updated(h: Memory, g: Memory, a: Addr, key: Key, x: Addr) {
    exists i: nat :: BlockStored(h, g, a, i, key, x) && Holds(h.items, h.nodes[a], i, key)
                     && g.items == h.items - {h.nodes[a].blocks[i].addr}
  }

  /** Slot `s` is the first free one in the probe order of the seed. */
  ghost predicate FirstFree(cfg: Config, blocks: seq<Block>, seed: nat, s: nat) {
    && s < |blocks| && blocks[s].free
    && exists i: nat :: i < cfg.Bf() && XorLow(i, seed, cfg.bits) == s && NoneBefore(cfg, blocks, seed, i)
  }

  ghost predicate NoneBefore(cfg: Config, blocks: seq<Block>, seed: nat, i: nat) {
    forall j: nat :: j < i && XorLow(j, seed, cfg.bits) < |blocks| ==> !blocks[XorLow(j, seed, cfg.bits)].free
  }

  /** The insertion: the first free block in probe order has changed, or the leaf is cut. */
  ghost predicate Added(cfg: Config, h: Memory, g: Memory, seed: nat, a: Addr, key: Key, x: Addr) {
    && a in h.nodes && h.nodes[a].Leaf? && g.items == h.items
    && var n := Used(h.nodes[a].blocks) + 1;
    if Overloaded(cfg, n) then exists d :: LeafCutAt(h, g, a, d, n)
    else exists i: nat :: BlockStored(h, g, a, i, key, x) && FirstFree(cfg, h.nodes[a].blocks, seed, i)
  }

  function WithItem(h: Memory, x: Addr, it: Item): Memory {
    h.(items := h.items[x := it])
  }

  /** The new item is at `x`, and one leaf, the one of the key, is updated or takes the key. */
  ghost predicate InsertedAt(cfg: Config, h: Memory, g: Memory, present: bool, seed: nat, a: Addr, x: Addr, it: Item) {
    && LeafFor(h, a, it.key) && x !in h.items
    && if present then Updated(WithItem(h, x, it), g, a, it.key, x)
       else Added(cfg, WithItem(h, x, it), g, seed, a, it.key, x)
  }

  ghost predicate Inserted(cfg: Config, h: Memory, g: Memory, present: bool, seed: nat, it: Item) {
    exists a, x :: InsertedAt(cfg, h, g, present, seed, a, x, it)
  }

  /** A leaf before its blocks were locked or written is the same leaf to a cut. */
  lemma CutFromBefore(h: Memory, f: Memory, g: Memory, a: Addr, d: Addr, n: nat)
    requires LeafCutAt(f, g, a, d, n) && a in h.nodes && h.nodes[a].Leaf? && f.nodes == h.nodes[a := f.nodes[a]]
    requires f.nodes[a].lo == h.nodes[a].lo && f.nodes[a].hi == h.nodes[a].hi
    ensures LeafCutAt(h, g, a, d, n)
  {
    forall b | b in h.nodes && b != a && h.nodes[b].Leaf?
      ensures b in g.nodes && g.nodes[b] == h.nodes[b]
    {
      assert f.nodes[b] == h.nodes[b];
    }
  }

  /** The two leaves written and their separator entered above. */
  lemma CutAfterWork(h: Memory, f: Memory, g: Memory, a: Addr, l: Node, d: Addr, r: Node, n: nat)
    requires a in h.nodes && h.nodes[a].Leaf? && d !in h.nodes && l.Leaf? && r.Leaf?
    requires l.lo == h.nodes[a].lo && l.hi == r.lo && r.hi == h.nodes[a].hi
    requires Used(l.blocks) == n / 2 && Used(r.blocks) == n - n / 2
    requires InnerWork(Put(Put(h, d, r), a, l), f) && a in f.nodes && g == Put(f, a, Relock(f.nodes[a], 0))
    ensures LeafCutAt(h, g, a, d, n)
  {
    var h2 := Put(Put(h, d, r), a, l);
    assert InnerWorkAt(h2, f, a) && InnerWorkAt(h2, f, d);
    forall b | b in h.nodes && b != a && h.nodes[b].Leaf?
      ensures b in g.nodes && g.nodes[b] == h.nodes[b]
    {
      assert InnerWorkAt(h2, f, b);
    }
  }

  /** One leaf decides whether a key has it cut. */
  lemma CutByLeaf(cfg: Config, h: Memory, m: map<Key, Value>, a: Addr, k: Key)
    requires TreeInv(cfg, h, m, NoSplit) && LeafFor(h, a, k)
    ensures WillBeCut(cfg, h, k) <==> Overloaded(cfg, Used(h.nodes[a].blocks) + 1)
  {
    hide Used, Overloaded, AllExact, KeysBounded, Links;
    forall b | LeafFor(h, b, k)
      ensures b == a
    {
      OneLeaf(h, a, b, k);
    }
  }

  lemma UpdatedCounts(h: Memory, g: Memory, a: Addr, x: Addr, it: Item)
    requires x !in h.items && a in h.nodes && Updated(WithItem(h, x, it), g, a, it.key, x)
    requires h.nodes[a].Leaf? && forall i: nat, k :: Holds(WithItem(h, x, it).items, h.nodes[a], i, k) ==>
      h.nodes[a].blocks[i].addr in h.items
    ensures g.nodes.Keys == h.nodes.Keys && g.root == h.root && |g.items| == |h.items|
  {
    var f := WithItem(h, x, it);
    assert f.items.Keys == h.items.Keys + {x};
    var i: nat :| BlockStored(f, g, a, i, it.key, x) && Holds(f.items, f.nodes[a], i, it.key)
                  && g.items == f.items - {f.nodes[a].blocks[i].addr};
    assert g.items.Keys == f.items.Keys - {f.nodes[a].blocks[i].addr};
  }

  lemma AddedCounts(cfg: Config, h: Memory, g: Memory, seed: nat, a: Addr, x: Addr, it: Item)
    requires x !in h.items && a in h.nodes && h.nodes[a].Leaf? && Added(cfg, WithItem(h, x, it), g, seed, a, it.key, x)
    ensures g.nodes.Keys != h.nodes.Keys <==> Overloaded(cfg, Used(h.nodes[a].blocks) + 1)
    ensures g.nodes.Keys == h.nodes.Keys ==> g.root == h.root
    ensures |g.items| == |h.items| + 1
  {
    var f := WithItem(h, x, it);
    assert f.items.Keys == h.items.Keys + {x};
    if Overloaded(cfg, Used(h.nodes[a].blocks) + 1) {
      var d :| LeafCutAt(f, g, a, d, Used(f.nodes[a].blocks) + 1);
      assert d in g.nodes.Keys && d !in h.nodes.Keys;
    }
  }

  lemma UsedBlocksHaveItems(h: Memory, m: map<Key, Value>, a: Addr, x: Addr, it: Item)
    requires a in h.nodes && h.nodes[a].Leaf? && Exact(h.items, m, h.nodes[a])
    ensures forall i: nat, k :: Holds(WithItem(h, x, it).items, h.nodes[a], i, k) ==>
      h.nodes[a].blocks[i].addr in h.items
  {
    forall i: nat, k | Holds(WithItem(h, x, it).items, h.nodes[a], i, k)
      ensures h.nodes[a].blocks[i].addr in h.items
    {
      assert BlockOk(h.items, m, h.nodes[a], i);
    }
  }

  lemma OneKeyMore(m: map<Key, Value>, k: Key, v: Value)
    ensures |m[k := v]| == |m| + if k in m then 0 else 1
  {
    assert m[k := v].Keys == m.Keys + {k};
  }

  lemma CountsAt(cfg: Config, h: Memory, m: map<Key, Value>, g: Memory, seed: nat, a: Addr, x: Addr, it: Item)
    requires TreeInv(cfg, h, m, NoSplit) && InsertedAt(cfg, h, g, it.key in m, seed, a, x, it)
    ensures g.nodes.Keys != h.nodes.Keys <==> it.key !in m && WillBeCut(cfg, h, it.key)
    ensures g.nodes.Keys == h.nodes.Keys ==> g.root == h.root
    ensures |g.items| == |h.items| + if it.key in m then 0 else 1
  {
    hide Updated, Added, Exact, Structure, KeysBounded, WillBeCut, Overloaded, Used;
    CutByLeaf(cfg, h, m, a, it.key);
    LeafIsExact(h, m, a);
    if it.key in m {
      UsedBlocksHaveItems(h, m, a, x, it);
      UpdatedCounts(h, g, a, x, it);
    } else {
      AddedCounts(cfg, h, g, seed, a, x, it);
    }
  }

  /** Nodes are added exactly when the leaf of a new key is to be cut, and there is one item for each key. */
  lemma InsertedCounts(cfg: Config, h: Memory, m: map<Key, Value>, g: Memory, seed: nat, it: Item)
    requires TreeInv(cfg, h, m, NoSplit) && Inserted(cfg, h, g, it.key in m, seed, it)
    ensures g.nodes.Keys != h.nodes.Keys <==> it.key !in m && WillBeCut(cfg, h, it.key)
    ensures g.nodes.Keys == h.nodes.Keys ==> g.root == h.root
    ensures |g.items| + |m| == |h.items| + |m[it.key := it.value]|
  {
    hide TreeInv, InsertedAt, WillBeCut;
    var a, x :| InsertedAt(cfg, h, g, it.key in m, seed, a, x, it);
    OneKeyMore(m, it.key, it.value);
    CountsAt(cfg, h, m, g, seed, a, x, it);
  }

  /** With a full watermark no leaf with room is cut. */
  lemma FullWatermarkNeverCuts(cfg: Config, h: Memory, m: map<Key, Value>, k: Key)
    requires TreeInv(cfg, h, m, NoSplit) && cfg.watermark >= cfg.Bf() && !LeafFull(cfg, h, k)
    ensures !WillBeCut(cfg, h, k)
  {
    forall a | LeafFor(h, a, k)
      ensures !Overloaded(cfg, Used(h.nodes[a].blocks) + 1)
    {
      assert Shape(cfg, h.nodes[a]);
    }
  }
}
