/** What each step of a Sherman insert does to the whole invariant. */
module ShermanSteps {
  import opened Bits
  import opened ShermanPages
  import opened ShermanContents

  function RootLevel(h: Memory): nat
    requires h.root in h.pages
  {
    h.pages[h.root].Level()
  }

  /** A page of the level covers the key. */
  ghost predicate At(h: Memory, a: Addr, level: nat, k: Key) {
    a in h.pages && h.pages[a].Level() == level && h.pages[a].Covers(k)
  }

  lemma RootCovers(cfg: Config, h: Memory, k: Key)
    requires Structure(cfg, h, NoSplit) && k < cfg.maxKey
    ensures h.root in h.pages && At(h, h.root, RootLevel(h), k)
  {
  }

  /** The tree of one empty leaf. */
  lemma EmptyTree(cfg: Config, a: Addr, n: Page)
    requires cfg.Ok() && a != NULL && n.Leaf? && n.lo == 0 && n.hi == cfg.maxKey && n.sibling == NULL
    requires |n.entries| == cfg.leaf && forall i :: 0 <= i < cfg.leaf ==> n.entries[i].Empty()
    ensures Inv(cfg, Memory(map[a := n], map[], a), map[], NoSplit)
  {
    UsedPrefix(n.entries, 0);
  }

  function WithItem(h: Memory, a: Addr, it: Item): Memory {
    h.(items := h.items[a := it])
  }

  lemma ItemsKeepStructure(cfg: Config, h: Memory, g: Memory, p: Pending)
    requires Structure(cfg, h, p) && g.pages == h.pages && g.root == h.root
    ensures Structure(cfg, g, p)
  {
    assert g == h.(items := g.items);
    hide Disjoint, Siblings, Shapes;
    SamePages(cfg, h, g, p);
    forall b | b in g.pages
      ensures OwnLinks(g, p, g.pages[b])
    {
      assert OwnLinks(h, p, h.pages[b]);
      LinksSamePages(h, g, p, h.pages[b]);
    }
  }

  lemma SamePages(cfg: Config, h: Memory, g: Memory, p: Pending)
    requires g.pages == h.pages && g.root == h.root
    ensures Shapes(cfg, h) ==> Shapes(cfg, g)
    ensures Disjoint(h) ==> Disjoint(g)
    ensures Siblings(cfg, h) ==> Siblings(cfg, g)
  {
    if Siblings(cfg, h) {
      forall b | b in g.pages
        ensures SiblingOk(cfg, g, g.pages[b])
      {
        assert SiblingOk(cfg, h, h.pages[b]);
      }
    }
  }

  lemma LinksSamePages(h: Memory, g: Memory, p: Pending, n: Page)
    requires g.pages == h.pages && OwnLinks(h, p, n)
    ensures OwnLinks(g, p, n)
  {
    if n.Inner? {
      forall i | 0 <= i <= |n.records|
        ensures LinkOk(g, p, n, i)
      {
        assert LinkOk(h, p, n, i);
      }
    }
  }

  /** Every other page does not cover the key of a leaf, or is not a leaf. */
  lemma OtherPage(cfg: Config, h: Memory, a: Addr, b: Addr, k: Key)
    requires Disjoint(h) && At(h, a, 0, k) && b in h.pages && b != a
    ensures h.pages[b].Leaf? ==> !h.pages[b].Covers(k)
  {
    assert h.pages[b].Leaf? ==> Apart(h.pages[a], h.pages[b]);
  }

  lemma InnerExact(items: Items, m: Model, n: Page)
    requires n.Inner?
    ensures Exact(items, m, n)
  {
  }

  lemma OthersExact(cfg: Config, h: Memory, m: Model, a: Addr, x: Addr, it: Item, b: Addr)
    requires Disjoint(h) && AllExact(h, m) && At(h, a, 0, it.key) && b in h.pages && b != a
    requires x in h.items ==> h.items[x].key == it.key
    ensures Exact(h.items[x := it], m[it.key := it.value], h.pages[b])
  {
    hide Exact;
    if h.pages[b].Leaf? {
      OtherPage(cfg, h, a, b, it.key);
      OtherLeafExact(h.items, m, h.pages[b], x, it);
    } else {
      InnerExact(h.items[x := it], m[it.key := it.value], h.pages[b]);
    }
  }

  // ---- Update --------------------------------------------------------------------------------------

  /** Overwriting the item of a present key. */
  lemma UpdateInv(cfg: Config, h: Memory, m: Model, a: Addr, i: nat, it: Item)
    requires Inv(cfg, h, m, NoSplit) && At(h, a, 0, it.key) && h.pages[a].Leaf? && Holds(h.items, h.pages[a], i, it.key)
    ensures Inv(cfg, WithItem(h, h.pages[a].entries[i].ptr, it), m[it.key := it.value], NoSplit)
  {
    var x := h.pages[a].entries[i].ptr;
    var g := WithItem(h, x, it);
    var m' := m[it.key := it.value];
    assert Exact(h.items, m, h.pages[a]);
    assert it.key in m by {
      FoundValue(h.items, m, h.pages[a], i, it.key);
    }
    ItemsKeepStructure(cfg, h, g, NoSplit);
    hide Exact, Structure, Sized;
    UpdateExact(h.items, m, h.pages[a], i, it);
    forall b | b in g.pages
      ensures Exact(g.items, m', g.pages[b])
    {
      if b != a {
        assert Disjoint(h) by { StructureDisjoint(cfg, h, NoSplit); }
        OthersExact(cfg, h, m, a, x, it, b);
      }
    }
    assert Sizes(cfg, g, NoSplit);
  }

  lemma StructureDisjoint(cfg: Config, h: Memory, p: Pending)
    requires Structure(cfg, h, p)
    ensures Disjoint(h) && h.root in h.pages && NULL !in h.pages
  {
  }

  // ---- A new entry -----------------------------------------------------------------------------------

  /** The leaf image with the new entry, and the memory with its item. */
  ghost predicate NewEntry(cfg: Config, h: Memory, m: Model, a: Addr, i: nat, x: Addr, it: Item) {
    && Inv(cfg, h, m, NoSplit) && At(h, a, 0, it.key) && h.pages[a].Leaf?
    && i < |h.pages[a].entries| && h.pages[a].entries[i].Empty()
    && x !in h.items && x != NULL && it.key !in m && it.key < cfg.maxKey
  }

  lemma NewEntryExact(cfg: Config, h: Memory, m: Model, a: Addr, i: nat, x: Addr, it: Item)
    requires NewEntry(cfg, h, m, a, i, x, it)
    ensures var w := WithEntry(h.pages[a], i, it.key, x);
      && Exact(h.items[x := it], m[it.key := it.value], w)
      && Used(w.entries) == Used(h.pages[a].entries) + 1
      && Shape(cfg, w)
    ensures forall b :: b in h.pages && b != a ==> Exact(h.items[x := it], m[it.key := it.value], h.pages[b])
    ensures KeysBounded(cfg, m[it.key := it.value]) && NULL !in h.items[x := it]
    ensures Structure(cfg, WithItem(h, x, it), NoSplit)
  {
    assert Shape(cfg, h.pages[a]) && Exact(h.items, m, h.pages[a]);
    ItemsKeepStructure(cfg, h, WithItem(h, x, it), NoSplit);
    UsedUpdate(h.pages[a].entries, i, Entry(Fp(it.key), x));
    hide Exact, Sized;
    InsertExact(h.items, m, h.pages[a], i, x, it);
    forall b | b in h.pages && b != a
      ensures Exact(h.items[x := it], m[it.key := it.value], h.pages[b])
    {
      OthersExact(cfg, h, m, a, x, it, b);
    }
  }

  /** An entry in a leaf with room for one more. */
  lemma InsertInv(cfg: Config, h: Memory, m: Model, a: Addr, i: nat, x: Addr, it: Item)
    requires NewEntry(cfg, h, m, a, i, x, it) && Used(h.pages[a].entries) + 1 < cfg.leaf
    ensures Inv(cfg, Put(WithItem(h, x, it), a, WithEntry(h.pages[a], i, it.key, x)), m[it.key := it.value], NoSplit)
  {
    NewEntryExact(cfg, h, m, a, i, x, it);
    assert Sizes(cfg, h, NoSplit) && Sized(cfg, h.pages[a], a == h.root);
    var h1 := WithItem(h, x, it);
    var w := WithEntry(h.pages[a], i, it.key, x);
    assert Sized(cfg, w, a == h.root);
    hide NewEntry, Exact, Shape, Structure, KeysBounded, Sizes, Sized, Used;
    PutLeafStructure(cfg, h1, a, w);
    PutSizes(cfg, h, a, w, Put(h1, a, w));
    assert AllExact(Put(h1, a, w), m[it.key := it.value]);
  }

  /** A leaf may be rewritten within its fence. */
  lemma PutLeafStructure(cfg: Config, h: Memory, a: Addr, w: Page)
    requires Structure(cfg, h, NoSplit) && a in h.pages && h.pages[a].Leaf? && w.Leaf? && Shape(cfg, w)
    requires w.lo == h.pages[a].lo && w.hi == h.pages[a].hi && w.sibling == h.pages[a].sibling
    ensures Structure(cfg, Put(h, a, w), NoSplit)
  {
    hide Shape, Shapes, Disjoint, Siblings, TopOk;
    Refit(cfg, h, NoSplit, a, w);
  }

  /** Page by page, what remains sized when one page is rewritten. */
  lemma PutSizes(cfg: Config, h: Memory, a: Addr, w: Page, g: Memory)
    requires Sizes(cfg, h, NoSplit) && a in h.pages && g.pages == h.pages[a := w] && g.root == h.root
    requires Sized(cfg, w, a == h.root)
    ensures Sizes(cfg, g, NoSplit)
  {
    hide Sized;
  }

  // ---- A leaf split -------------------------------------------------------------------------------------

  function LeftLeaf(n: Page, es: seq<Keyed>, mid: nat, d: Addr, size: nat): Page
    requires n.Leaf? && mid < |es| <= size
  {
    Leaf(n.lo, es[mid].key, d, Filled(es, 0, mid, size))
  }

  function RightLeaf(n: Page, es: seq<Keyed>, mid: nat, size: nat): Page
    requires n.Leaf? && mid < |es| <= size
  {
    Leaf(es[mid].key, n.hi, n.sibling, Filled(es, mid, |es|, size))
  }

  /** The sorted entries of a full leaf, cut at the middle: both halves are exact, at least half full
      and have room. */
  lemma LeafHalves(cfg: Config, items: Items, m: Model, w: Page, es: seq<Keyed>, d: Addr)
    requires cfg.Ok() && w.Leaf? && Shape(cfg, w) && Exact(items, m, w)
    requires Gathered(items, w, |w.entries|, es) && Sorted(es) && |es| == cfg.leaf
    ensures var mid := |es| / 2; var l, r := LeftLeaf(w, es, mid, d, cfg.leaf), RightLeaf(w, es, mid, cfg.leaf);
      && Shape(cfg, l) && Shape(cfg, r) && Exact(items, m, l) && Exact(items, m, r)
      && Sized(cfg, l, false) && Sized(cfg, r, false)
  {
    var mid := |es| / 2;
    var l, r := LeftLeaf(w, es, mid, d, cfg.leaf), RightLeaf(w, es, mid, cfg.leaf);
    EntriesCovered(items, m, w, es);
    assert es[0].key < es[mid].key;
    hide Exact, Gathered, Filled;
    PartLeaf(cfg, items, m, w, es, 0, mid, l);
    PartLeaf(cfg, items, m, w, es, mid, |es|, r);
  }

  /** A part of the sorted entries, at least half a leaf, as a leaf of its own. */
  lemma PartLeaf(cfg: Config, items: Items, m: Model, w: Page, es: seq<Keyed>, from: nat, to: nat, l: Page)
    requires cfg.Ok() && w.Leaf? && Shape(cfg, w) && Exact(items, m, w) && Gathered(items, w, |w.entries|, es)
      && Sorted(es)
    requires from <= to <= |es| && cfg.leaf / 2 <= to - from < cfg.leaf
    requires l.Leaf? && l.entries == Filled(es, from, to, cfg.leaf) && w.lo <= l.lo < l.hi <= w.hi
    requires forall j :: 0 <= j < |es| ==> (l.Covers(es[j].key) <==> from <= j < to)
    ensures Shape(cfg, l) && Exact(items, m, l) && Sized(cfg, l, false)
  {
    hide Exact, Gathered, Filled, Sorted;
    FilledHolds(items, w, es, from, to, l);
    PartExact(items, m, w, es, from, to, l);
  }

  lemma EntriesCovered(items: Items, m: Model, w: Page, es: seq<Keyed>)
    requires w.Leaf? && Exact(items, m, w) && Gathered(items, w, |w.entries|, es)
    ensures forall j :: 0 <= j < |es| ==> w.Covers(es[j].key)
  {
    forall j | 0 <= j < |es|
      ensures w.Covers(es[j].key)
    {
      assert From(items, w, |w.entries|, es[j]);
      var i: nat :| Holds(items, w, i, es[j].key);
      assert EntryOk(items, m, w, i);
    }
  }

  lemma CutAtTop(cfg: Config, h: Memory, a: Addr, l: Page, d: Addr, r: Page)
    requires Structure(cfg, h, NoSplit) && CutOk(cfg, h, a, l, d, r)
    ensures AtTop(CutMemory(h, a, l, d, r), Split(r.lo, d, r.Level() + 1)) <==> a == h.root
  {
    RootAlone(cfg, h, a);
    hide LinksBut, OwnLinks, Disjoint, Siblings, Shapes, Shape;
    var g := CutMemory(h, a, l, d, r);
    assert g.pages[h.root].Level() == h.pages[h.root].Level();
  }

  /** A cut into exact halves of the right size keeps everything else. */
  lemma CutInv(cfg: Config, h: Memory, m: Model, a: Addr, l: Page, d: Addr, r: Page)
    requires Structure(cfg, h, NoSplit) && CutOk(cfg, h, a, l, d, r)
    requires Sized(cfg, l, false) && Sized(cfg, r, false)
    requires forall b :: b in h.pages && b != a ==> Exact(h.items, m, h.pages[b]) && Sized(cfg, h.pages[b], b == h.root)
    requires Exact(h.items, m, l) && Exact(h.items, m, r) && KeysBounded(cfg, m) && NULL !in h.items
    ensures Inv(cfg, CutMemory(h, a, l, d, r), m, Split(r.lo, d, r.Level() + 1))
    ensures AtTop(CutMemory(h, a, l, d, r), Split(r.lo, d, r.Level() + 1)) <==> a == h.root
  {
    assert d !in h.pages && a in h.pages;
    hide Structure, CutOk, AtTop, Exact, Sized, KeysBounded;
    Cut(cfg, h, a, l, d, r);
    CutAtTop(cfg, h, a, l, d, r);
    var p := Split(r.lo, d, r.Level() + 1);
    CutContents(cfg, h, m, a, l, d, r);
    CutSizes(cfg, h, a, l, d, r, p);
    hide AllExact, Sizes;
  }

  lemma CutContents(cfg: Config, h: Memory, m: Model, a: Addr, l: Page, d: Addr, r: Page)
    requires a in h.pages && forall b :: b in h.pages && b != a ==> Exact(h.items, m, h.pages[b])
    requires Exact(h.items, m, l) && Exact(h.items, m, r)
    ensures AllExact(CutMemory(h, a, l, d, r), m)
  {
    hide Exact;
  }

  lemma CutSizes(cfg: Config, h: Memory, a: Addr, l: Page, d: Addr, r: Page, p: Pending)
    requires a in h.pages && (AtTop(CutMemory(h, a, l, d, r), p) ==> a == h.root)
    requires forall b :: b in h.pages && b != a ==> Sized(cfg, h.pages[b], b == h.root)
    requires Sized(cfg, l, false) && Sized(cfg, r, false)
    ensures Sizes(cfg, CutMemory(h, a, l, d, r), p)
  {
    hide AtTop, Sized;
    SizedRoot(cfg, l, true);
    SizedRoot(cfg, r, true);
  }

  lemma SizedRoot(cfg: Config, n: Page, top: bool)
    requires Sized(cfg, n, false)
    ensures Sized(cfg, n, top)
  {
  }

  /** A full leaf is cut; its separator is pending on level 1. */
  lemma LeafSplitInv(cfg: Config, h: Memory, m: Model, a: Addr, i: nat, x: Addr, it: Item, es: seq<Keyed>, d: Addr)
    requires NewEntry(cfg, h, m, a, i, x, it) && d !in h.pages && d != NULL
    requires var w := WithEntry(h.pages[a], i, it.key, x);
      Gathered(h.items[x := it], w, |w.entries|, es) && Sorted(es) && |es| == cfg.leaf
    ensures var w := WithEntry(h.pages[a], i, it.key, x); var mid := |es| / 2;
      var l, r := LeftLeaf(w, es, mid, d, cfg.leaf), RightLeaf(w, es, mid, cfg.leaf);
      && w.lo < es[mid].key < w.hi
      && Inv(cfg, CutMemory(WithItem(h, x, it), a, l, d, r), m[it.key := it.value], Split(es[mid].key, d, 1))
      && (AtTop(CutMemory(WithItem(h, x, it), a, l, d, r), Split(es[mid].key, d, 1)) <==> a == h.root)
  {
    hide NewEntry, Gathered, Sorted, Exact, Sized, Structure, CutOk, Inv, KeysBounded, Filled, Shape, AtTop;
    NewEntryFacts(cfg, h, m, a, i, x, it);
    var w := WithEntry(h.pages[a], i, it.key, x);
    var mid := |es| / 2;
    var l, r := LeftLeaf(w, es, mid, d, cfg.leaf), RightLeaf(w, es, mid, cfg.leaf);
    NewEntryExact(cfg, h, m, a, i, x, it);
    LeafSplitPages(cfg, h, m, a, i, x, it, es, d);
    CutInv(cfg, WithItem(h, x, it), m[it.key := it.value], a, l, d, r);
  }

  lemma NewEntryFacts(cfg: Config, h: Memory, m: Model, a: Addr, i: nat, x: Addr, it: Item)
    requires NewEntry(cfg, h, m, a, i, x, it)
    ensures a in h.pages && h.pages[a].Leaf? && i < |h.pages[a].entries| && cfg.Ok()
  {
  }

  lemma LeafSplitPages(cfg: Config, h: Memory, m: Model, a: Addr, i: nat, x: Addr, it: Item, es: seq<Keyed>, d: Addr)
    requires NewEntry(cfg, h, m, a, i, x, it) && d !in h.pages && d != NULL
    requires var w := WithEntry(h.pages[a], i, it.key, x);
      Gathered(h.items[x := it], w, |w.entries|, es) && Sorted(es) && |es| == cfg.leaf
    ensures var w := WithEntry(h.pages[a], i, it.key, x); var mid := |es| / 2;
      var l, r := LeftLeaf(w, es, mid, d, cfg.leaf), RightLeaf(w, es, mid, cfg.leaf);
      && w.lo < es[mid].key < w.hi && CutOk(cfg, WithItem(h, x, it), a, l, d, r)
      && Exact(h.items[x := it], m[it.key := it.value], l) && Exact(h.items[x := it], m[it.key := it.value], r)
      && Sized(cfg, l, false) && Sized(cfg, r, false)
    ensures forall b :: b in h.pages ==> Sized(cfg, h.pages[b], b == h.root)
  {
    var w := WithEntry(h.pages[a], i, it.key, x);
    assert cfg.Ok() && Sizes(cfg, h, NoSplit);
    hide Inv, Shape, Exact;
    NewEntryExact(cfg, h, m, a, i, x, it);
    assert forall b :: b in h.pages ==> Sized(cfg, h.pages[b], b == h.root);
    hide Exact, Gathered, Sorted, Sized, Filled, Inv;
    LeafHalves(cfg, h.items[x := it], m[it.key := it.value], w, es, d);
  }

  // ---- The levels above ------------------------------------------------------------------------------------

  /** The page that takes the pending separator. */
  ghost predicate Taker(cfg: Config, h: Memory, m: Model, p: Pending, a: Addr) {
    && Inv(cfg, h, m, p) && p.Split? && At(h, a, p.level, p.sep) && h.pages[a].Inner?
  }

  lemma TakerFacts(cfg: Config, h: Memory, m: Model, p: Pending, a: Addr)
    requires Taker(cfg, h, m, p, a)
    ensures cfg.Ok() && |h.pages[a].records| < cfg.inner && !AtTop(h, p) && Sizes(cfg, h, NoSplit)
    ensures forall j :: 0 <= j < |h.pages[a].records| ==> h.pages[a].records[j].key != p.sep
    ensures Ascending(h.pages[a].records) && 1 <= |h.pages[a].records|
    ensures Sized(cfg, h.pages[a], a == h.root)
    ensures p.level == RootLevel(h) <==> a == h.root
  {
    PendingParent(cfg, h, p, a);
    assert Shape(cfg, h.pages[a]) && Sized(cfg, h.pages[a], a == h.root && !AtTop(h, p));
    assert a != h.root && p.level == RootLevel(h) ==> Apart(h.pages[a], h.pages[h.root]);
  }

  lemma PagesExact(h: Memory, m: Model, g: Memory)
    requires AllExact(h, m) && g.items == h.items
    requires forall b :: b in g.pages ==> g.pages[b].Inner? || (b in h.pages && g.pages[b] == h.pages[b])
    ensures AllExact(g, m)
  {
    hide Exact;
    forall b | b in g.pages
      ensures Exact(g.items, m, g.pages[b])
    {
      if g.pages[b].Inner? {
        InnerExact(g.items, m, g.pages[b]);
      }
    }
  }

  /** It enters a page with room for one more. */
  lemma EnterInv(cfg: Config, h: Memory, m: Model, p: Pending, a: Addr)
    requires Taker(cfg, h, m, p, a) && |h.pages[a].records| + 1 < cfg.inner
    ensures Inv(cfg, Put(h, a, WithRecord(h.pages[a], p.sep, p.right)), m, NoSplit)
  {
    hide Structure, Taker, Inv, Sizes, AllExact, KeysBounded, AtTop, Route;
    TakerFacts(cfg, h, m, p, a);
    TakerParts(cfg, h, m, p, a);
    TakerLevel(cfg, h, m, p, a);
    TakerStructure(cfg, h, m, p);
    var w := WithRecord(h.pages[a], p.sep, p.right);
    WithRecordParts(h.pages[a], p.sep, p.right, 0);
    assert Sized(cfg, w, a == h.root);
    EnterSettles(cfg, h, p, a);
    hide Sized;
    PagesExact(h, m, Put(h, a, w));
    PutSizes(cfg, h, a, w, Put(h, a, w));
    InvOf(cfg, Put(h, a, w), m);
  }

  lemma InvOf(cfg: Config, h: Memory, m: Model)
    requires Structure(cfg, h, NoSplit) && AllExact(h, m) && Sizes(cfg, h, NoSplit) && KeysBounded(cfg, m)
      && NULL !in h.items
    ensures Inv(cfg, h, m, NoSplit)
  {
    hide Structure, AllExact, Sizes, KeysBounded;
  }

  lemma TakerLevel(cfg: Config, h: Memory, m: Model, p: Pending, a: Addr)
    requires Taker(cfg, h, m, p, a)
    ensures Inv(cfg, h, m, p) && h.root in h.pages && p.level <= RootLevel(h) && At(h, a, p.level, p.sep)
  {
  }

  /** It fills the page, which is cut; the middle separator is pending one level above, inside the
      fence of whatever page there covered a key of this page. */
  lemma InnerSplitInv(cfg: Config, h: Memory, m: Model, p: Pending, a: Addr, d: Addr)
    requires Taker(cfg, h, m, p, a) && |h.pages[a].records| + 1 == cfg.inner && d !in h.pages && d != NULL
    ensures var w := WithRecord(h.pages[a], p.sep, p.right); var mid := cfg.inner / 2;
      && |w.records| == cfg.inner && mid + 1 < |w.records|
      && w.lo < w.records[mid].key < w.hi
      && Inv(cfg, CutMemory(h, a, LeftHalf(w, mid, d), d, RightHalf(w, mid)), m,
             Split(w.records[mid].key, d, p.level + 1))
      && (a == h.root <==>
          AtTop(CutMemory(h, a, LeftHalf(w, mid, d), d, RightHalf(w, mid)), Split(w.records[mid].key, d, p.level + 1)))
  {
    hide Taker, Exact, Sized, Structure, CutOk, Inv, KeysBounded, Shape, AtTop, Sizes, AllExact, Route;
    TakerParts(cfg, h, m, p, a);
    var w := WithRecord(h.pages[a], p.sep, p.right);
    var mid := cfg.inner / 2;
    var g := Put(h, a, w);
    InnerSplitPages(cfg, h, m, p, a, d);
    var l, r := LeftHalf(w, mid, d), RightHalf(w, mid);
    assert CutMemory(g, a, l, d, r) == CutMemory(h, a, l, d, r);
    InnerExact(h.items, m, l);
    InnerExact(h.items, m, r);
    OthersFine(cfg, h, m, a, w);
    CutInv(cfg, g, m, a, l, d, r);
  }

  lemma TakerParts(cfg: Config, h: Memory, m: Model, p: Pending, a: Addr)
    requires Taker(cfg, h, m, p, a)
    ensures AllExact(h, m) && KeysBounded(cfg, m) && NULL !in h.items
    ensures p.Split? && a in h.pages && h.pages[a].Inner? && h.pages[a].height == p.level
  {
  }

  lemma OthersFine(cfg: Config, h: Memory, m: Model, a: Addr, w: Page)
    requires Sizes(cfg, h, NoSplit) && a in h.pages && AllExact(h, m)
    ensures forall b :: b in Put(h, a, w).pages && b != a ==>
      Exact(h.items, m, Put(h, a, w).pages[b]) && Sized(cfg, Put(h, a, w).pages[b], b == h.root)
  {
    hide Sized, Exact;
    assert forall b :: b in h.pages ==> Sized(cfg, h.pages[b], b == h.root);
  }

  lemma InnerSplitPages(cfg: Config, h: Memory, m: Model, p: Pending, a: Addr, d: Addr)
    requires Taker(cfg, h, m, p, a) && |h.pages[a].records| + 1 == cfg.inner && d !in h.pages && d != NULL
    ensures var w := WithRecord(h.pages[a], p.sep, p.right); var mid := cfg.inner / 2;
      && |w.records| == cfg.inner && 1 <= mid && mid + 1 < |w.records| && w.lo < w.records[mid].key < w.hi
      && Structure(cfg, Put(h, a, w), NoSplit) && Sizes(cfg, h, NoSplit)
      && CutOk(cfg, Put(h, a, w), a, LeftHalf(w, mid, d), d, RightHalf(w, mid))
      && Sized(cfg, LeftHalf(w, mid, d), false) && Sized(cfg, RightHalf(w, mid), false)
  {
    hide Inv, Taker, Structure, Sizes, CutOk;
    TakerFacts(cfg, h, m, p, a);
    TakerLevel(cfg, h, m, p, a);
    TakerStructure(cfg, h, m, p);
    TakerParts(cfg, h, m, p, a);
    EnterSettles(cfg, h, p, a);
    var w := WithRecord(h.pages[a], p.sep, p.right);
    WithRecordParts(h.pages[a], p.sep, p.right, 0);
    hide WithRecord, Route, AtTop, KeysBounded, AllExact;
    var mid := cfg.inner / 2;
    var g := Put(h, a, w);
    SettledShape(cfg, g, a);
    HalvesCut(cfg, g, a, mid, d);
    assert w.lo < w.records[mid].key < w.hi;
  }

  lemma TakerStructure(cfg: Config, h: Memory, m: Model, p: Pending)
    requires Inv(cfg, h, m, p)
    ensures Structure(cfg, h, p)
  {
  }

  lemma SettledShape(cfg: Config, h: Memory, a: Addr)
    requires Structure(cfg, h, NoSplit) && a in h.pages
    ensures Shape(cfg, h.pages[a])
  {
  }

  /** Fences nest also while a separator is pending below. */
  lemma CoversAbove(cfg: Config, h: Memory, m: Model, p: Pending, a: Addr, b: Addr, k: Key, sep: Key)
    requires Inv(cfg, h, m, p) && a in h.pages && h.pages[a].Covers(k) && At(h, b, h.pages[a].Level() + 1, k)
    requires p.Split? ==> p.level == h.pages[a].Level()
    requires h.pages[a].lo < sep < h.pages[a].hi
    ensures h.pages[b].Covers(sep)
  {
    Nested(cfg, h, p, a, b, k);
  }

  lemma RootInv(cfg: Config, h: Memory, m: Model, p: Pending, d: Addr)
    requires Inv(cfg, h, m, p) && AtTop(h, p) && d !in h.pages && d != NULL
    ensures Inv(cfg, Put(h, d, NewRoot(cfg, h.root, p)).(root := d), m, NoSplit)
  {
    RootGrows(cfg, h, p, d);
    var g := Put(h, d, NewRoot(cfg, h.root, p)).(root := d);
    assert cfg.Ok();
    hide Structure;
    PagesExact(h, m, g);
    forall b | b in g.pages
      ensures Sized(cfg, g.pages[b], b == g.root)
    {
      assert b != d ==> Sized(cfg, h.pages[b], false);
    }
  }
}
