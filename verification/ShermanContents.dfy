/** Sherman leaves against the abstract map, how full pages are, and how high the tree can be. */
module ShermanContents {
  import opened Bits
  import opened Fresh
  import opened ShermanPages

  type Items = map<Addr, Item>
  type Model = map<Key, Value>

  // ---- Leaf contents --------------------------------------------------------------------------

  /** Entry `i` of the leaf points to an item with key `k`. */
  ghost predicate Holds(items: Items, n: Page, i: nat, k: Key) {
    n.Leaf? && i < |n.entries| && !n.entries[i].Empty() && n.entries[i].ptr in items && items[n.entries[i].ptr].key == k
  }

  ghost predicate EntryOk(items: Items, m: Model, n: Page, i: nat)
    requires n.Leaf? && i < |n.entries|
  {
    !n.entries[i].Empty() ==>
      && n.entries[i].ptr in items
      && var it := items[n.entries[i].ptr];
      n.Covers(it.key) && n.entries[i].fp == Fp(it.key) && it.key in m && m[it.key] == it.value
  }

  ghost predicate Sound(items: Items, m: Model, n: Page) {
    n.Leaf? ==> forall i :: 0 <= i < |n.entries| ==> EntryOk(items, m, n, i)
  }

  ghost predicate Distinct(items: Items, n: Page) {
    forall i, j, k :: Holds(items, n, i, k) && Holds(items, n, j, k) ==> i == j
  }

  ghost predicate Present(items: Items, n: Page, k: Key) {
    exists i :: Holds(items, n, i, k)
  }

  ghost predicate Complete(items: Items, m: Model, n: Page) {
    n.Leaf? ==> forall k :: k in m && n.Covers(k) ==> Present(items, n, k)
  }

  /** The leaf holds exactly the entries of the map in its fence, each once. */
  ghost predicate Exact(items: Items, m: Model, n: Page) {
    Sound(items, m, n) && Distinct(items, n) && Complete(items, m, n)
  }

  ghost predicate AllExact(h: Memory, m: Model) {
    forall a :: a in h.pages ==> Exact(h.items, m, h.pages[a])
  }

  lemma NewItemExact(items: Items, m: Model, n: Page, a: Addr, it: Item)
    requires a !in items && Exact(items, m, n)
    ensures Exact(items[a := it], m, n)
  {
    var more := items[a := it];
    forall i: nat, k | Holds(more, n, i, k)
      ensures Holds(items, n, i, k)
    {
      assert EntryOk(items, m, n, i);
    }
    assert n.Leaf? ==> forall i :: 0 <= i < |n.entries| && EntryOk(items, m, n, i) ==> EntryOk(more, m, n, i);
    forall k | n.Leaf? && k in m && n.Covers(k)
      ensures Present(more, n, k)
    {
      assert Present(items, n, k);
      var i: nat :| Holds(items, n, i, k);
      assert Holds(more, n, i, k);
    }
  }

  /** A leaf whose fence does not contain the key does not notice a change of its item or value. */
  lemma OtherLeafExact(items: Items, m: Model, n: Page, a: Addr, it: Item)
    requires Exact(items, m, n) && !n.Covers(it.key) && (a in items ==> items[a].key == it.key)
    ensures Exact(items[a := it], m[it.key := it.value], n)
  {
    if a !in items {
      NewItemExact(items, m, n, a, it);
    }
    var items', m' := items[a := it], m[it.key := it.value];
    if n.Leaf? {
      forall i | 0 <= i < |n.entries|
        ensures EntryOk(items', m', n, i)
      {
        assert EntryOk(items, m, n, i);
      }
      forall i: nat, k | Holds(items', n, i, k)
        ensures Holds(items, n, i, k)
      {
        assert EntryOk(items, m, n, i);
      }
      forall k | k in m' && n.Covers(k)
        ensures Present(items', n, k)
      {
        assert Present(items, n, k);
        var i: nat :| Holds(items, n, i, k);
        assert Holds(items', n, i, k);
      }
    }
  }

  /** Overwriting the item of a present key. */
  lemma UpdateExact(items: Items, m: Model, n: Page, i: nat, it: Item)
    requires Exact(items, m, n) && Holds(items, n, i, it.key)
    ensures Exact(items[n.entries[i].ptr := it], m[it.key := it.value], n)
  {
    var a := n.entries[i].ptr;
    var items', m' := items[a := it], m[it.key := it.value];
    assert forall j: nat, k :: Holds(items', n, j, k) <==> Holds(items, n, j, k);
    assert EntryOk(items, m, n, i);
    forall j | 0 <= j < |n.entries|
      ensures EntryOk(items', m', n, j)
    {
      assert EntryOk(items, m, n, j);
      if j != i && !n.entries[j].Empty() {
        assert Holds(items, n, j, items[n.entries[j].ptr].key);
      }
    }
    forall k | k in m' && n.Covers(k)
      ensures Present(items', n, k)
    {
      if k == it.key {
        assert Holds(items', n, i, k);
      } else {
        assert Present(items, n, k);
        var j: nat :| Holds(items, n, j, k);
        assert Holds(items', n, j, k);
      }
    }
  }

  /** The leaf after entry `i` was set to a new item. */
  function WithEntry(n: Page, i: nat, key: Key, ptr: Addr): Page
    requires n.Leaf? && i < |n.entries|
  {
    n.(entries := n.entries[i := Entry(Fp(key), ptr)])
  }

  lemma InsertExact(items: Items, m: Model, n: Page, i: nat, a: Addr, it: Item)
    requires n.Leaf? && i < |n.entries| && n.entries[i].Empty() && Exact(items, m, n)
    requires a !in items && a != NULL && n.Covers(it.key) && it.key !in m
    ensures Exact(items[a := it], m[it.key := it.value], WithEntry(n, i, it.key, a))
  {
    NewItemExact(items, m, n, a, it);
    var l := WithEntry(n, i, it.key, a);
    var items', m' := items[a := it], m[it.key := it.value];
    forall j | 0 <= j < |l.entries|
      ensures EntryOk(items', m', l, j)
    {
      assert EntryOk(items', m, n, j);
    }
    forall j: nat, k | Holds(items', l, j, k)
      ensures if j == i then k == it.key else Holds(items', n, j, k) && k != it.key
    {
      assert EntryOk(items', m, n, j);
    }
    assert Holds(items', l, i, it.key);
    forall k | k in m' && l.Covers(k)
      ensures Present(items', l, k)
    {
      if k != it.key {
        assert Present(items', n, k);
        var j: nat :| Holds(items', n, j, k);
        assert Holds(items', l, j, k);
      }
    }
  }

  /** An entry that points to the item of `key` proves the key present, and its value. */
  lemma FoundValue(items: Items, m: Model, n: Page, i: nat, k: Key)
    requires Exact(items, m, n) && Holds(items, n, i, k)
    ensures n.Covers(k) && k in m && m[k] == items[n.entries[i].ptr].value && n.entries[i].fp == Fp(k)
  {
    assert EntryOk(items, m, n, i);
  }

  // ---- Used entries ----------------------------------------------------------------------------

  function Used(entries: seq<Entry>): (c: nat)
    ensures c <= |entries|
  {
    if entries == [] then 0
    else Used(entries[..|entries| - 1]) + (if entries[|entries| - 1].Empty() then 0 else 1)
  }

  lemma {:induction false} UsedUpdate(s: seq<Entry>, i: nat, e: Entry)
    requires i < |s| && s[i].Empty() && !e.Empty()
    ensures Used(s[i := e]) == Used(s) + 1
  {
    var n := |s| - 1;
    if i == n {
      assert s[i := e][..n] == s[..n];
    } else {
      assert s[i := e][..n] == s[..n][i := e];
      UsedUpdate(s[..n], i, e);
    }
  }

  lemma {:induction false} UsedPrefix(s: seq<Entry>, n: nat)
    requires n <= |s| && forall i :: 0 <= i < |s| ==> (s[i].Empty() <==> n <= i)
    ensures Used(s) == n
  {
    if s != [] {
      UsedPrefix(s[..|s| - 1], if n == |s| then n - 1 else n);
    }
  }

  lemma {:induction false} EmptyExists(s: seq<Entry>)
    ensures Used(s) == |s| <==> forall i :: 0 <= i < |s| ==> !s[i].Empty()
  {
    if s != [] {
      EmptyExists(s[..|s| - 1]);
      assert forall i :: 0 <= i < |s| - 1 ==> s[..|s| - 1][i] == s[i];
    }
  }

  // ---- Splitting a leaf ---------------------------------------------------------------------------

  /** An entry with the key read through its pointer. */
  datatype Keyed = Keyed(key: Key, entry: Entry)

  ghost predicate Sorted(es: seq<Keyed>) {
    forall i, j :: 0 <= i < j < |es| ==> es[i].key < es[j].key
  }

  ghost predicate From(items: Items, n: Page, upto: nat, e: Keyed) {
    exists i: nat :: i < upto && Holds(items, n, i, e.key) && n.entries[i] == e.entry
  }

  ghost predicate Listed(es: seq<Keyed>, k: Key) {
    exists j :: 0 <= j < |es| && es[j].key == k
  }

  /** The keyed entries are those of the first `upto` slots, no key twice. */
  ghost predicate Gathered(items: Items, n: Page, upto: nat, es: seq<Keyed>) {
    && (forall i, j :: 0 <= i < j < |es| ==> es[i].key != es[j].key)
    && (forall j :: 0 <= j < |es| ==> From(items, n, upto, es[j]))
    && (forall i: nat, k :: Holds(items, n, i, k) && i < upto ==> Listed(es, k))
  }

  /** The entries of `es[from..to]`, then empty ones. */
  function Filled(es: seq<Keyed>, from: nat, to: nat, size: nat): (r: seq<Entry>)
    requires from <= to <= |es| && to - from <= size
    ensures |r| == size
  {
    seq(size, i requires 0 <= i < size => if i < to - from then es[from + i].entry else Entry(0, NULL))
  }

  lemma FilledHolds(items: Items, n: Page, es: seq<Keyed>, from: nat, to: nat, l: Page)
    requires n.Leaf? && Gathered(items, n, |n.entries|, es)
    requires l.Leaf? && from <= to <= |es| && to - from <= |l.entries| && l.entries == Filled(es, from, to, |l.entries|)
    ensures forall j :: from <= j < to ==> Holds(items, l, j - from, es[j].key)
    ensures forall i: nat, k :: Holds(items, l, i, k) ==> i < to - from && k == es[from + i].key
    ensures Used(l.entries) == to - from
  {
    forall j | from <= j < to
      ensures Holds(items, l, j - from, es[j].key)
    {
      assert From(items, n, |n.entries|, es[j]);
      assert l.entries[j - from] == es[from + (j - from)].entry;
    }
    forall i | 0 <= i < |l.entries|
      ensures l.entries[i].Empty() <==> to - from <= i
    {
      assert i < to - from ==> Holds(items, l, (from + i) - from, es[from + i].key);
    }
    forall i: nat, k | Holds(items, l, i, k)
      ensures i < to - from && k == es[from + i].key
    {
      assert Holds(items, l, (from + i) - from, es[from + i].key);
    }
    UsedPrefix(l.entries, to - from);
  }

  /** Part of the sorted entries makes an exact leaf for the part of the fence its keys lie in. */
  lemma PartExact(items: Items, m: Model, n: Page, es: seq<Keyed>, from: nat, to: nat, l: Page)
    requires n.Leaf? && Exact(items, m, n) && Gathered(items, n, |n.entries|, es)
    requires l.Leaf? && from <= to <= |es| && to - from <= |l.entries| && l.entries == Filled(es, from, to, |l.entries|)
    requires n.lo <= l.lo && l.hi <= n.hi
    requires forall j :: 0 <= j < |es| ==> (l.Covers(es[j].key) <==> from <= j < to)
    ensures Exact(items, m, l)
  {
    FilledHolds(items, n, es, from, to, l);
    forall i | 0 <= i < |l.entries|
      ensures EntryOk(items, m, l, i)
    {
      if i < to - from {
        var e := es[from + i];
        assert From(items, n, |n.entries|, e);
        var j: nat :| Holds(items, n, j, e.key) && n.entries[j] == e.entry;
        assert EntryOk(items, m, n, j);
      }
    }
    forall k | k in m && l.Covers(k)
      ensures Present(items, l, k)
    {
      assert Present(items, n, k);
      var i: nat :| Holds(items, n, i, k);
      assert Listed(es, k);
      var j :| 0 <= j < |es| && es[j].key == k;
      assert Holds(items, l, j - from, k);
    }
  }

  // ---- How full pages are ---------------------------------------------------------------------------

  /** Every page has room; every page but the root is at least half full. */
  ghost predicate Sized(cfg: Config, n: Page, top: bool) {
    if n.Leaf? then Used(n.entries) < cfg.leaf && (top || cfg.leaf / 2 <= Used(n.entries))
    else |n.records| < cfg.inner && (top || (cfg.inner + 1) / 2 <= |n.records| + 1)
  }

  ghost predicate Sizes(cfg: Config, h: Memory, p: Pending) {
    forall a :: a in h.pages ==> Sized(cfg, h.pages[a], a == h.root && !AtTop(h, p))
  }

  ghost predicate KeysBounded(cfg: Config, m: Model) {
    forall k :: k in m ==> k < cfg.maxKey
  }

  ghost predicate Inv(cfg: Config, h: Memory, m: Model, p: Pending) {
    && Structure(cfg, h, p) && AllExact(h, m) && Sizes(cfg, h, p)
    && KeysBounded(cfg, m) && NULL !in h.items
  }

  // ---- The height of the tree -----------------------------------------------------------------------

  ghost function Between(m: Model, lo: Key, hi: Key): set<Key> {
    set k | k in m && lo <= k < hi
  }

  function Power(b: nat, e: nat): nat {
    if e == 0 then 1 else b * Power(b, e - 1)
  }

  /** The fewest keys below a page of the given level that is not the root. */
  function MinKeys(cfg: Config, level: nat): nat {
    Power((cfg.inner + 1) / 2, level) * (cfg.leaf / 2)
  }

  lemma MinKeysStep(cfg: Config, level: nat, kids: nat)
    requires level > 0 && (cfg.inner + 1) / 2 <= kids
    ensures MinKeys(cfg, level) <= kids * MinKeys(cfg, level - 1)
  {
    var c, rest := (cfg.inner + 1) / 2, MinKeys(cfg, level - 1);
    assert Power(c, level) * (cfg.leaf / 2) == c * rest by {
      Reassociate(c, Power(c, level - 1), cfg.leaf / 2);
    }
    Scale(c, kids, rest);
  }

  lemma Reassociate(a: nat, b: nat, c: nat)
    ensures (a * b) * c == a * (b * c)
  {
  }

  lemma Scale(a: nat, b: nat, c: nat)
    requires a <= b
    ensures a * c <= b * c
  {
  }

  lemma BetweenSplits(m: Model, lo: Key, mid: Key, hi: Key)
    requires lo <= mid <= hi
    ensures |Between(m, lo, hi)| == |Between(m, lo, mid)| + |Between(m, mid, hi)|
  {
    assert Between(m, lo, hi) == Between(m, lo, mid) + Between(m, mid, hi);
    assert Between(m, lo, mid) !! Between(m, mid, hi);
  }

  lemma {:induction false} LeafCount(items: Items, m: Model, n: Page, j: nat, keys: set<Key>)
    requires n.Leaf? && Exact(items, m, n) && j <= |n.entries|
    requires keys <= Between(m, n.lo, n.hi) && forall i: nat, k :: Holds(items, n, i, k) && i < j ==> k !in keys
    ensures Used(n.entries[..j]) + |keys| <= |Between(m, n.lo, n.hi)|
  {
    if j == 0 {
      Smaller(keys, Between(m, n.lo, n.hi));
    } else {
      assert n.entries[..j][..j - 1] == n.entries[..j - 1];
      if n.entries[j - 1].Empty() {
        LeafCount(items, m, n, j - 1, keys);
      } else {
        assert EntryOk(items, m, n, j - 1);
        var k := items[n.entries[j - 1].ptr].key;
        assert Holds(items, n, j - 1, k);
        LeafCount(items, m, n, j - 1, keys + {k});
      }
    }
  }

  lemma LeafPageCount(cfg: Config, h: Memory, m: Model, a: Addr)
    requires Inv(cfg, h, m, NoSplit) && a in h.pages && a != h.root && h.pages[a].Leaf?
    ensures MinKeys(cfg, 0) <= |Between(m, h.pages[a].lo, h.pages[a].hi)|
  {
    var n := h.pages[a];
    assert Sized(cfg, n, false) && Exact(h.items, m, n);
    hide Structure, AllExact, Sizes, Exact, Between;
    assert {} <= Between(m, n.lo, n.hi);
    LeafCount(h.items, m, n, |n.entries|, {});
    assert n.entries[..|n.entries|] == n.entries;
    assert Power((cfg.inner + 1) / 2, 0) == 1;
  }

  /** A page that is not the root has at least the least number of keys in its fence. */
  lemma {:induction false} PageCount(cfg: Config, h: Memory, m: Model, a: Addr)
    requires Inv(cfg, h, m, NoSplit) && a in h.pages && a != h.root
    ensures MinKeys(cfg, h.pages[a].Level()) <= |Between(m, h.pages[a].lo, h.pages[a].hi)|
    decreases h.pages[a].Level(), 0
  {
    var n := h.pages[a];
    if n.Leaf? {
      LeafPageCount(cfg, h, m, a);
    } else {
      assert Sized(cfg, n, false) && Shape(cfg, n);
      hide Inv, Shape, MinKeys, Between;
      KidsCount(cfg, h, m, a, |n.records|);
      MinKeysStep(cfg, n.height, |n.records| + 1);
    }
  }

  /** Child `i` of an inner page: where it lies. */
  lemma ChildFence(cfg: Config, h: Memory, m: Model, a: Addr, i: nat)
    requires Inv(cfg, h, m, NoSplit) && a in h.pages && h.pages[a].Inner? && i <= |h.pages[a].records|
    ensures var n := h.pages[a];
      && n.height >= 1 && n.Kid(i) in h.pages && n.Kid(i) != h.root
      && n.lo <= n.Lower(i) <= n.Upper(i)
      && var c := h.pages[n.Kid(i)];
      c.Level() + 1 == n.height && c.lo == n.Lower(i) && c.hi == n.Upper(i)
  {
    var n := h.pages[a];
    assert Shape(cfg, n) && OwnLinks(h, NoSplit, n);
    assert LinkOk(h, NoSplit, n, i);
    assert n.height <= h.pages[h.root].Level();
  }

  /** The first `i + 1` children of an inner page. */
  lemma {:induction false} KidsCount(cfg: Config, h: Memory, m: Model, a: Addr, i: nat)
    requires Inv(cfg, h, m, NoSplit) && a in h.pages && h.pages[a].Inner? && i <= |h.pages[a].records|
      && h.pages[a].height >= 1
    ensures (i + 1) * MinKeys(cfg, h.pages[a].height - 1) <= |Between(m, h.pages[a].lo, h.pages[a].Upper(i))|
    decreases h.pages[a].height - 1, 1, i
  {
    hide Inv, MinKeys, Between;
    ChildFence(cfg, h, m, a, i);
    var n := h.pages[a];
    PageCount(cfg, h, m, n.Kid(i));
    if i > 0 {
      KidsCount(cfg, h, m, a, i - 1);
      BetweenSplits(m, n.lo, n.Lower(i), n.Upper(i));
    }
  }

  /** The least number of keys in a tree whose root has the given level. */
  function Bound(cfg: Config, level: nat): nat
    requires level >= 1
  {
    2 * Power((cfg.inner + 1) / 2, level - 1) * (cfg.leaf / 2)
  }

  lemma BoundIs(cfg: Config, level: nat)
    requires level >= 1
    ensures Bound(cfg, level) == 2 * MinKeys(cfg, level - 1)
  {
    Reassociate(2, Power((cfg.inner + 1) / 2, level - 1), cfg.leaf / 2);
  }

  lemma AllBetween(cfg: Config, m: Model)
    requires KeysBounded(cfg, m)
    ensures |Between(m, 0, cfg.maxKey)| == |m|
  {
    assert Between(m, 0, cfg.maxKey) == m.Keys;
  }

  /** A tree whose root is on level h >= 1 holds at least 2 * ceil(C/2)^(h-1) * floor(L/2) keys. */
  lemma HeightBound(cfg: Config, h: Memory, m: Model)
    requires Inv(cfg, h, m, NoSplit) && h.pages[h.root].Level() >= 1
    ensures Bound(cfg, h.pages[h.root].Level()) <= |m|
  {
    hide Inv, MinKeys, Between, Bound, Power;
    RootFacts(cfg, h, m);
    var n := h.pages[h.root];
    var kids, least := |n.records| + 1, MinKeys(cfg, n.height - 1);
    KidsCount(cfg, h, m, h.root, |n.records|);
    assert n.Upper(|n.records|) == n.hi;
    AtLeastTwo(kids, least, |m|);
    BoundIs(cfg, n.height);
  }

  lemma AtLeastTwo(kids: nat, least: nat, total: nat)
    requires kids >= 2 && kids * least <= total
    ensures 2 * least <= total
  {
    Scale(2, kids, least);
  }

  lemma RootFacts(cfg: Config, h: Memory, m: Model)
    requires Inv(cfg, h, m, NoSplit)
    ensures h.root in h.pages && h.pages[h.root].lo == 0 && h.pages[h.root].hi == cfg.maxKey
    ensures h.pages[h.root].Level() >= 1 ==> h.pages[h.root].Inner? && |h.pages[h.root].records| >= 1
    ensures |Between(m, 0, cfg.maxKey)| == |m|
  {
    assert Shape(cfg, h.pages[h.root]);
    AllBetween(cfg, m);
  }

  lemma {:induction false} PowerGrows(b: nat, d: nat, e: nat)
    requires b >= 1 && d <= e
    ensures Power(b, d) <= Power(b, e)
  {
    if d < e {
      PowerGrows(b, d, e - 1);
      Scale(1, b, Power(b, e - 1));
    }
  }

  lemma BoundAtLeastTwo(cfg: Config, level: nat)
    requires cfg.Ok() && level >= 1
    ensures Bound(cfg, level) >= 2
  {
    var b := (cfg.inner + 1) / 2;
    PowerGrows(b, 0, level - 1);
    hide Power;
    Scale(2, 2 * Power(b, level - 1), cfg.leaf / 2);
  }

  lemma BoundGrows(cfg: Config, l: nat, level: nat)
    requires cfg.Ok() && 1 <= l <= level
    ensures Bound(cfg, l) <= Bound(cfg, level)
  {
    var b := (cfg.inner + 1) / 2;
    PowerGrows(b, l - 1, level - 1);
    hide Power;
    Scale(2 * Power(b, l - 1), 2 * Power(b, level - 1), cfg.leaf / 2);
  }

  /** So with fewer keys than the bound of level `l` the root is below that level. */
  lemma FewKeysLowTree(cfg: Config, h: Memory, m: Model, l: nat)
    requires Inv(cfg, h, m, NoSplit) && l >= 1 && |m| < Bound(cfg, l)
    ensures h.root in h.pages && h.pages[h.root].Level() < l
  {
    assert h.root in h.pages && cfg.Ok();
    var level := h.pages[h.root].Level();
    hide Inv, Bound;
    if l <= level {
      HeightBound(cfg, h, m);
      BoundGrows(cfg, l, level);
    }
  }
}
