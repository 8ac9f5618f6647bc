/** Page layouts of the Sherman B+Tree, remote memory, the structural invariant, and what entering a
    record, cutting a page in two and growing a root do to it. */
module ShermanPages {
  type Key = nat
  type Value = nat
  type Addr = nat

  const NULL: Addr := 0

  /** Cardinalities of inner and leaf pages, and the largest key, which clients do not use. */
  datatype Config = Config(inner: nat, leaf: nat, maxKey: Key) {
    predicate Ok() { 3 <= inner && 2 <= leaf && 0 < maxKey }
  }

  datatype Item = Item(key: Key, value: Value)

  /** A leaf entry: a fingerprint and the address of an item; empty when the address is null. */
  datatype Entry = Entry(fp: nat, ptr: Addr) {
    predicate Empty() { ptr == NULL }
  }

  datatype Record = Record(key: Key, ptr: Addr)

  /** The fence of a page is [lo, hi). The leftmost child of an inner page holds the keys below the
      first record, the child of record `i` those from its key on. */
  datatype Page =
    | Leaf(lo: Key, hi: Key, sibling: Addr, entries: seq<Entry>)
    | Inner(lo: Key, hi: Key, sibling: Addr, height: nat, leftmost: Addr, records: seq<Record>)
  {
    function Level(): nat { if Leaf? then 0 else height }
    predicate Covers(k: Key) { lo <= k < hi }

    function Kid(i: nat): Addr
      requires Inner? && i <= |records|
    {
      if i == 0 then leftmost else records[i - 1].ptr
    }

    /** The part of the fence child `i` is responsible for. */
    function Lower(i: nat): Key
      requires Inner? && i <= |records|
    {
      if i == 0 then lo else records[i - 1].key
    }

    function Upper(i: nat): Key
      requires Inner? && i <= |records|
    {
      if i < |records| then records[i].key else hi
    }
  }

  datatype Memory = Memory(pages: map<Addr, Page>, items: map<Addr, Item>, root: Addr)

  function Put(h: Memory, a: Addr, n: Page): Memory {
    h.(pages := h.pages[a := n])
  }

  // ---- Shapes and routing ---------------------------------------------------------------------

  ghost predicate Ascending(records: seq<Record>) {
    forall i, j :: 0 <= i < j < |records| ==> records[i].key < records[j].key
  }

  ghost predicate Shape(cfg: Config, n: Page) {
    && n.lo < n.hi <= cfg.maxKey
    && (n.Leaf? ==> |n.entries| == cfg.leaf)
    && (n.Inner? ==>
          && n.height >= 1 && 1 <= |n.records| <= cfg.inner && Ascending(n.records)
          && forall i :: 0 <= i < |n.records| ==> n.lo < n.records[i].key < n.hi)
  }

  ghost predicate Shapes(cfg: Config, h: Memory) {
    forall a :: a in h.pages ==> Shape(cfg, h.pages[a])
  }

  /** Index of the first record whose key is above `k`, or their number. */
  function Route(records: seq<Record>, k: Key): (r: nat)
    ensures r <= |records|
    ensures r < |records| ==> k < records[r].key
    ensures forall j :: 0 <= j < r ==> records[j].key <= k
  {
    RouteFrom(records, k, 0)
  }

  function RouteFrom(records: seq<Record>, k: Key, i: nat): (r: nat)
    requires i <= |records|
    ensures i <= r <= |records|
    ensures r < |records| ==> k < records[r].key
    ensures forall j :: i <= j < r ==> records[j].key <= k
    decreases |records| - i
  {
    if i == |records| || k < records[i].key then i else RouteFrom(records, k, i + 1)
  }

  lemma RouteBounds(cfg: Config, n: Page, k: Key)
    requires Shape(cfg, n) && n.Inner? && n.Covers(k)
    ensures n.Lower(Route(n.records, k)) <= k < n.Upper(Route(n.records, k))
  {
  }

  lemma RouteUnique(cfg: Config, n: Page, k: Key, i: nat)
    requires Shape(cfg, n) && n.Inner? && i <= |n.records| && n.Lower(i) <= k < n.Upper(i)
    ensures Route(n.records, k) == i
  {
  }

  // ---- The structure ----------------------------------------------------------------------------

  /** A page split whose right page the level above does not know yet. */
  datatype Pending = NoSplit | Split(sep: Key, right: Addr, level: nat)

  ghost predicate LinkOk(h: Memory, p: Pending, n: Page, i: nat)
    requires n.Inner? && i <= |n.records|
  {
    && n.Kid(i) in h.pages
    && var c := h.pages[n.Kid(i)];
    && c.Level() + 1 == n.height && c.lo == n.Lower(i)
    && (c.hi == n.Upper(i)
        || (p.Split? && n.height == p.level && c.hi == p.sep && p.right in h.pages
            && n.Upper(i) == h.pages[p.right].hi))
    && (p.Split? ==> n.Kid(i) != p.right)
  }

  ghost predicate OwnLinks(h: Memory, p: Pending, n: Page) {
    n.Inner? ==> forall i :: 0 <= i <= |n.records| ==> LinkOk(h, p, n, i)
  }

  /** Every page but `but` has good links. */
  ghost predicate LinksBut(h: Memory, p: Pending, but: set<Addr>) {
    forall a :: a in h.pages && a !in but ==> OwnLinks(h, p, h.pages[a])
  }

  ghost predicate Apart(m: Page, n: Page) {
    m.hi <= n.lo || n.hi <= m.lo
  }

  ghost predicate Disjoint(h: Memory) {
    forall a, b :: a in h.pages && b in h.pages && a != b && h.pages[a].Level() == h.pages[b].Level()
                   ==> Apart(h.pages[a], h.pages[b])
  }

  /** The sibling is the page right of this one on its level. */
  ghost predicate SiblingOk(cfg: Config, h: Memory, n: Page) {
    if n.hi == cfg.maxKey then n.sibling == NULL
    else n.sibling in h.pages && h.pages[n.sibling].Level() == n.Level() && h.pages[n.sibling].lo == n.hi
  }

  ghost predicate Siblings(cfg: Config, h: Memory) {
    forall a :: a in h.pages ==> SiblingOk(cfg, h, h.pages[a])
  }

  ghost predicate AtTop(h: Memory, p: Pending) {
    p.Split? && h.root in h.pages && p.level == h.pages[h.root].Level() + 1
  }

  ghost predicate LevelsUpTo(h: Memory, level: nat) {
    forall a :: a in h.pages ==> h.pages[a].Level() <= level
  }

  ghost predicate TopOk(cfg: Config, h: Memory, p: Pending) {
    && h.root in h.pages && NULL !in h.pages && h.pages[h.root].lo == 0
    && LevelsUpTo(h, h.pages[h.root].Level())
    && (if AtTop(h, p) then
          h.pages[h.root].hi == p.sep && p.right in h.pages && h.pages[p.right].hi == cfg.maxKey && p.right != h.root
        else h.pages[h.root].hi == cfg.maxKey)
  }

  ghost predicate PendingOk(h: Memory, p: Pending) {
    p.Split? ==>
      && p.right in h.pages && h.pages[p.right].Level() + 1 == p.level && h.pages[p.right].lo == p.sep
      && h.root in h.pages && p.level <= h.pages[h.root].Level() + 1
  }

  ghost predicate Structure(cfg: Config, h: Memory, p: Pending) {
    && cfg.Ok() && Shapes(cfg, h) && LinksBut(h, p, {}) && Disjoint(h) && Siblings(cfg, h)
    && TopOk(cfg, h, p) && PendingOk(h, p)
  }

  // ---- Where a search goes ------------------------------------------------------------------------

  /** A search step: the child of a settled link covers the key, one level below. */
  lemma StepDown(cfg: Config, h: Memory, p: Pending, a: Addr, k: Key)
    requires Structure(cfg, h, p) && a in h.pages && h.pages[a].Inner? && h.pages[a].Covers(k)
    requires p.Split? ==> p.level != h.pages[a].height
    ensures var n := h.pages[a]; var c := n.Kid(Route(n.records, k));
      && c in h.pages && h.pages[c].Level() + 1 == n.height && h.pages[c].Covers(k)
      && n.lo <= h.pages[c].lo && h.pages[c].hi <= n.hi
  {
    var n := h.pages[a];
    assert Shape(cfg, n) && OwnLinks(h, p, n);
    RouteBounds(cfg, n, k);
    assert LinkOk(h, p, n, Route(n.records, k));
  }

  /** Fences nest along the pages that cover one key. */
  lemma Nested(cfg: Config, h: Memory, p: Pending, a: Addr, b: Addr, k: Key)
    requires Structure(cfg, h, p) && a in h.pages && b in h.pages
    requires h.pages[a].Level() + 1 == h.pages[b].Level() && h.pages[a].Covers(k) && h.pages[b].Covers(k)
    requires p.Split? ==> p.level != h.pages[b].height
    ensures h.pages[b].lo <= h.pages[a].lo && h.pages[a].hi <= h.pages[b].hi
  {
    StepDown(cfg, h, p, b, k);
    var c := h.pages[b].Kid(Route(h.pages[b].records, k));
    assert a != c ==> Apart(h.pages[a], h.pages[c]);
  }

  /** On the level of the root there is only the root. */
  lemma RootAlone(cfg: Config, h: Memory, a: Addr)
    requires Structure(cfg, h, NoSplit) && a in h.pages
    ensures h.pages[a].Level() == h.pages[h.root].Level() <==> a == h.root
  {
    assert Shape(cfg, h.pages[a])
      && (a != h.root && h.pages[a].Level() == h.pages[h.root].Level() ==> Apart(h.pages[a], h.pages[h.root]));
  }

  // ---- Entering a record --------------------------------------------------------------------------

  function WithRecord(n: Page, key: Key, ptr: Addr): Page
    requires n.Inner?
  {
    var x := Route(n.records, key);
    n.(records := n.records[..x] + [Record(key, ptr)] + n.records[x..])
  }

  /** The page that must take the pending separator: its child there ends at the separator, and the
      separator is new to it. */
  lemma PendingParent(cfg: Config, h: Memory, p: Pending, a: Addr)
    requires Structure(cfg, h, p) && p.Split? && a in h.pages
    requires h.pages[a].Inner? && h.pages[a].height == p.level && h.pages[a].Covers(p.sep)
    ensures var n := h.pages[a]; var x := Route(n.records, p.sep);
      && LinkOk(h, p, n, x) && h.pages[n.Kid(x)].hi == p.sep && n.Upper(x) == h.pages[p.right].hi
      && n.Lower(x) < p.sep < n.Upper(x)
      && forall j :: 0 <= j < |n.records| ==> (if j < x then n.records[j].key < p.sep else p.sep < n.records[j].key)
  {
    var n := h.pages[a];
    var x := Route(n.records, p.sep);
    assert Shape(cfg, n) && OwnLinks(h, p, n);
    hide Siblings, Shapes, LinksBut, TopOk;
    RouteBounds(cfg, n, p.sep);
    assert LinkOk(h, p, n, x);
    assert n.Kid(x) != p.right && Apart(h.pages[n.Kid(x)], h.pages[p.right]);
    ShapeOf(cfg, h, n.Kid(x));
    ShapeOf(cfg, h, p.right);
    Around(n, p.sep);
  }

  lemma ShapeOf(cfg: Config, h: Memory, a: Addr)
    requires Shapes(cfg, h) && a in h.pages
    ensures h.pages[a].lo < h.pages[a].hi <= cfg.maxKey
  {
  }

  lemma Around(n: Page, key: Key)
    requires n.Inner? && Ascending(n.records)
    requires n.Lower(Route(n.records, key)) < key < n.Upper(Route(n.records, key))
    ensures forall j :: 0 <= j < |n.records| ==>
      (if j < Route(n.records, key) then n.records[j].key < key else key < n.records[j].key)
  {
    var x := Route(n.records, key);
    assert forall j :: 0 <= j < x - 1 ==> n.records[j].key < n.records[x - 1].key;
    assert forall j :: x < j < |n.records| ==> n.records[x].key < n.records[j].key;
  }

  /** Every other link is exact. */
  lemma PendingElsewhere(cfg: Config, h: Memory, p: Pending, a: Addr, b: Addr, i: nat)
    requires Structure(cfg, h, p) && p.Split? && a in h.pages && b in h.pages
    requires h.pages[a].Inner? && h.pages[a].height == p.level && h.pages[a].Covers(p.sep)
    requires h.pages[b].Inner? && i <= |h.pages[b].records| && (b != a || i != Route(h.pages[a].records, p.sep))
    ensures LinkOk(h, NoSplit, h.pages[b], i)
  {
    var n := h.pages[b];
    assert OwnLinks(h, p, n) && LinkOk(h, p, n, i);
    var c := h.pages[n.Kid(i)];
    assert Shape(cfg, c) && Shape(cfg, h.pages[p.right]) && Shape(cfg, n) && Shape(cfg, h.pages[a]);
    assert n.height == p.level ==> b == a || Apart(n, h.pages[a]);
    if c.hi != n.Upper(i) {
      assert n.Lower(i) < p.sep < n.Upper(i);
      RouteUnique(cfg, n, p.sep, i);
      assert false;
    }
  }

  lemma WithRecordAt(n: Page, key: Key, ptr: Addr)
    requires n.Inner?
    ensures var w := WithRecord(n, key, ptr); var x := Route(n.records, key);
      && |w.records| == |n.records| + 1 && w.leftmost == n.leftmost
      && w.lo == n.lo && w.hi == n.hi && w.height == n.height
      && (forall j :: 0 <= j < x ==> w.records[j] == n.records[j])
      && w.records[x] == Record(key, ptr)
      && (forall j :: x < j < |w.records| ==> w.records[j] == n.records[j - 1])
  {
  }

  lemma WithRecordParts(n: Page, key: Key, ptr: Addr, i: nat)
    requires n.Inner? && i <= |n.records| + 1
    ensures var w := WithRecord(n, key, ptr); var x := Route(n.records, key);
      && |w.records| == |n.records| + 1 && w.height == n.height
      && (i < x ==> w.Kid(i) == n.Kid(i) && w.Lower(i) == n.Lower(i) && w.Upper(i) == n.Upper(i))
      && (i == x ==> w.Kid(i) == n.Kid(i) && w.Lower(i) == n.Lower(i) && w.Upper(i) == key)
      && (i == x + 1 ==> w.Kid(i) == ptr && w.Lower(i) == key && w.Upper(i) == n.Upper(x))
      && (i > x + 1 ==> w.Kid(i) == n.Kid(i - 1) && w.Lower(i) == n.Lower(i - 1) && w.Upper(i) == n.Upper(i - 1))
  {
    WithRecordAt(n, key, ptr);
    hide WithRecord, Route;
  }

  lemma WithRecordShape(cfg: Config, n: Page, key: Key, ptr: Addr)
    requires Shape(cfg, n) && n.Inner? && |n.records| < cfg.inner && n.lo < key < n.hi
    requires forall j :: 0 <= j < |n.records| ==>
      (if j < Route(n.records, key) then n.records[j].key < key else key < n.records[j].key)
    ensures Shape(cfg, WithRecord(n, key, ptr))
  {
    var w := WithRecord(n, key, ptr);
    var x := Route(n.records, key);
    WithRecordAt(n, key, ptr);
    hide WithRecord, Route;
    forall i, j | 0 <= i < j < |w.records|
      ensures w.records[i].key < w.records[j].key
    {
      assert i < x && x < j ==> n.records[i].key < key < n.records[j - 1].key;
    }
  }

  /** The page with the pending separator entered has exact links. */
  lemma AdoptLinks(cfg: Config, h: Memory, p: Pending, a: Addr)
    requires Structure(cfg, h, p) && p.Split? && a in h.pages
    requires h.pages[a].Inner? && h.pages[a].height == p.level && h.pages[a].Covers(p.sep)
    ensures OwnLinks(h, NoSplit, WithRecord(h.pages[a], p.sep, p.right))
  {
    var n := h.pages[a];
    var x := Route(n.records, p.sep);
    PendingParent(cfg, h, p, a);
    hide Structure, Route, WithRecord, LinkOk;
    var w := WithRecord(n, p.sep, p.right);
    WithRecordParts(n, p.sep, p.right, 0);
    forall i | 0 <= i <= |w.records|
      ensures LinkOk(h, NoSplit, w, i)
    {
      AdoptLink(cfg, h, p, a, i);
    }
  }

  lemma AdoptLink(cfg: Config, h: Memory, p: Pending, a: Addr, i: nat)
    requires Structure(cfg, h, p) && p.Split? && a in h.pages
    requires h.pages[a].Inner? && h.pages[a].height == p.level && h.pages[a].Covers(p.sep)
    requires i <= |h.pages[a].records| + 1
    ensures |WithRecord(h.pages[a], p.sep, p.right).records| == |h.pages[a].records| + 1
    ensures LinkOk(h, NoSplit, WithRecord(h.pages[a], p.sep, p.right), i)
  {
    var n := h.pages[a];
    var x := Route(n.records, p.sep);
    PendingParent(cfg, h, p, a);
    assert PendingOk(h, p);
    hide Structure, Route, WithRecord, LinkOk, PendingOk;
    var w := WithRecord(n, p.sep, p.right);
    WithRecordParts(n, p.sep, p.right, i);
    if i < x {
      PendingElsewhere(cfg, h, p, a, a, i);
      SameLink(h, n, i, w, i);
    } else if i > x + 1 {
      PendingElsewhere(cfg, h, p, a, a, i - 1);
      SameLink(h, n, i - 1, w, i);
    } else {
      WithRecordParts(n, p.sep, p.right, x);
      WithRecordParts(n, p.sep, p.right, x + 1);
      HalfLinks(h, p, n, x, w);
    }
  }

  /** The links left and right of a separator that enters. */
  lemma HalfLinks(h: Memory, p: Pending, n: Page, x: nat, w: Page)
    requires n.Inner? && x <= |n.records| && LinkOk(h, p, n, x) && p.Split? && PendingOk(h, p) && n.height == p.level
    requires h.pages[n.Kid(x)].hi == p.sep && n.Upper(x) == h.pages[p.right].hi
    requires w.Inner? && x + 1 <= |w.records| && w.height == n.height
    requires w.Kid(x) == n.Kid(x) && w.Lower(x) == n.Lower(x) && w.Upper(x) == p.sep
    requires w.Kid(x + 1) == p.right && w.Lower(x + 1) == p.sep && w.Upper(x + 1) == n.Upper(x)
    ensures LinkOk(h, NoSplit, w, x) && LinkOk(h, NoSplit, w, x + 1)
  {
  }

  lemma SameLink(h: Memory, n: Page, i: nat, w: Page, j: nat)
    requires n.Inner? && i <= |n.records| && w.Inner? && j <= |w.records| && w.height == n.height
    requires w.Kid(j) == n.Kid(i) && w.Lower(j) == n.Lower(i) && w.Upper(j) == n.Upper(i) && LinkOk(h, NoSplit, n, i)
    ensures LinkOk(h, NoSplit, w, j)
  {
  }

  lemma ElsewhereExact(cfg: Config, h: Memory, p: Pending, a: Addr)
    requires Structure(cfg, h, p) && p.Split? && a in h.pages
    requires h.pages[a].Inner? && h.pages[a].height == p.level && h.pages[a].Covers(p.sep)
    ensures LinksBut(h, NoSplit, {a})
  {
    forall b, i | b in h.pages && b != a && h.pages[b].Inner? && 0 <= i <= |h.pages[b].records|
      ensures LinkOk(h, NoSplit, h.pages[b], i)
    {
      hide Structure, LinkOk;
      PendingElsewhere(cfg, h, p, a, b, i);
    }
  }

  /** Every page is still there, on its level, with its fence and sibling. */
  ghost predicate SameFences(h: Memory, g: Memory) {
    forall b :: b in h.pages ==>
      && b in g.pages && g.pages[b].Level() == h.pages[b].Level() && g.pages[b].sibling == h.pages[b].sibling
      && g.pages[b].lo == h.pages[b].lo && g.pages[b].hi == h.pages[b].hi
  }

  lemma LinksMove(h: Memory, g: Memory, n: Page)
    requires OwnLinks(h, NoSplit, n) && SameFences(h, g)
    ensures OwnLinks(g, NoSplit, n)
  {
    if n.Inner? {
      forall i | 0 <= i <= |n.records|
        ensures LinkOk(g, NoSplit, n, i)
      {
        assert LinkOk(h, NoSplit, n, i);
      }
    }
  }

  lemma SiblingMoves(cfg: Config, h: Memory, g: Memory, n: Page)
    requires SiblingOk(cfg, h, n) && SameFences(h, g)
    ensures SiblingOk(cfg, g, n)
  {
  }

  lemma DisjointMoves(h: Memory, g: Memory)
    requires Disjoint(h) && SameFences(h, g) && g.pages.Keys == h.pages.Keys
    ensures Disjoint(g)
  {
    forall a, b | a in g.pages && b in g.pages && a != b && g.pages[a].Level() == g.pages[b].Level()
      ensures Apart(g.pages[a], g.pages[b])
    {
      assert Apart(h.pages[a], h.pages[b]);
    }
  }

  lemma TopMoves(cfg: Config, h: Memory, g: Memory)
    requires TopOk(cfg, h, NoSplit) && SameFences(h, g) && g.pages.Keys == h.pages.Keys && g.root == h.root
    ensures TopOk(cfg, g, NoSplit)
  {
  }

  lemma PutShapes(cfg: Config, h: Memory, a: Addr, w: Page)
    requires Shapes(cfg, h) && Shape(cfg, w)
    ensures Shapes(cfg, Put(h, a, w))
  {
    hide Shape;
  }

  lemma PutSameFences(h: Memory, a: Addr, w: Page)
    requires a in h.pages && w.sibling == h.pages[a].sibling
    requires w.lo == h.pages[a].lo && w.hi == h.pages[a].hi && w.Level() == h.pages[a].Level()
    ensures SameFences(h, Put(h, a, w)) && Put(h, a, w).pages.Keys == h.pages.Keys
  {
  }

  /** Writing back a page with the same fence and exact links. */
  lemma Refit(cfg: Config, h: Memory, p: Pending, a: Addr, w: Page)
    requires Structure(cfg, h, p) && a in h.pages && LinksBut(h, NoSplit, {a}) && TopOk(cfg, h, NoSplit)
    requires Shape(cfg, w) && OwnLinks(h, NoSplit, w) && w.sibling == h.pages[a].sibling
    requires w.lo == h.pages[a].lo && w.hi == h.pages[a].hi && w.Level() == h.pages[a].Level()
    ensures Structure(cfg, Put(h, a, w), NoSplit)
  {
    hide Shape, OwnLinks, Siblings, SameFences, Disjoint, TopOk, Shapes, LinksBut;
    var g := Put(h, a, w);
    PutShapes(cfg, h, a, w);
    PutSameFences(h, a, w);
    DisjointMoves(h, g);
    TopMoves(cfg, h, g);
    RefitLinks(cfg, h, a, w);
  }

  lemma RefitLinks(cfg: Config, h: Memory, a: Addr, w: Page)
    requires a in h.pages && LinksBut(h, NoSplit, {a}) && Siblings(cfg, h)
    requires OwnLinks(h, NoSplit, w) && w.sibling == h.pages[a].sibling && SameFences(h, Put(h, a, w))
    requires w.hi == h.pages[a].hi && w.Level() == h.pages[a].Level()
    ensures LinksBut(Put(h, a, w), NoSplit, {}) && Siblings(cfg, Put(h, a, w))
  {
    hide OwnLinks, SiblingOk, SameFences;
    var g := Put(h, a, w);
    forall b | b in g.pages
      ensures OwnLinks(g, NoSplit, g.pages[b]) && SiblingOk(cfg, g, g.pages[b])
    {
      assert b != a ==> OwnLinks(h, NoSplit, h.pages[b]);
      LinksMove(h, g, g.pages[b]);
      SiblingMoves(cfg, h, g, h.pages[b]);
      SameSibling(cfg, g, h.pages[b], g.pages[b]);
    }
  }

  lemma SameSibling(cfg: Config, h: Memory, n: Page, w: Page)
    requires SiblingOk(cfg, h, n) && w.hi == n.hi && w.sibling == n.sibling && w.Level() == n.Level()
    ensures SiblingOk(cfg, h, w)
  {
  }

  /** Entering the pending separator settles the tree. */
  lemma EnterSettles(cfg: Config, h: Memory, p: Pending, a: Addr)
    requires Structure(cfg, h, p) && p.Split? && a in h.pages
    requires h.pages[a].Inner? && h.pages[a].height == p.level && h.pages[a].Covers(p.sep)
    requires |h.pages[a].records| < cfg.inner
    ensures Structure(cfg, Put(h, a, WithRecord(h.pages[a], p.sep, p.right)), NoSplit)
  {
    var n := h.pages[a];
    assert Shape(cfg, n);
    PendingParent(cfg, h, p, a);
    WithRecordShape(cfg, n, p.sep, p.right);
    AdoptLinks(cfg, h, p, a);
    ElsewhereExact(cfg, h, p, a);
    Refit(cfg, h, p, a, WithRecord(n, p.sep, p.right));
  }

  // ---- Cutting a page -------------------------------------------------------------------------------

  /** The page at `a` is cut into `l`, written back, and `r`, written to the new address `d`. */
  ghost predicate CutOk(cfg: Config, h: Memory, a: Addr, l: Page, d: Addr, r: Page) {
    && a in h.pages && d !in h.pages && d != NULL
    && Shape(cfg, l) && Shape(cfg, r) && OwnLinks(h, NoSplit, l) && OwnLinks(h, NoSplit, r)
    && l.Level() == r.Level() == h.pages[a].Level()
    && l.lo == h.pages[a].lo && l.hi == r.lo && r.hi == h.pages[a].hi
    && l.sibling == d && r.sibling == h.pages[a].sibling
  }

  function CutMemory(h: Memory, a: Addr, l: Page, d: Addr, r: Page): Memory {
    Put(Put(h, d, r), a, l)
  }

  lemma CutDisjoint(cfg: Config, h: Memory, a: Addr, l: Page, d: Addr, r: Page)
    requires Structure(cfg, h, NoSplit) && CutOk(cfg, h, a, l, d, r)
    ensures Disjoint(CutMemory(h, a, l, d, r))
  {
    hide LinksBut, OwnLinks, Siblings, TopOk, Shapes;
    var g := CutMemory(h, a, l, d, r);
    ShapeOf(cfg, h, a);
    forall x, y | x in g.pages && y in g.pages && x != y && g.pages[x].Level() == g.pages[y].Level()
      ensures Apart(g.pages[x], g.pages[y])
    {
      var x0 := if x == d then a else x;
      var y0 := if y == d then a else y;
      assert x0 in h.pages && y0 in h.pages;
      assert x0 != y0 ==> Apart(h.pages[x0], h.pages[y0]);
    }
  }

  lemma CutSiblings(cfg: Config, h: Memory, a: Addr, l: Page, d: Addr, r: Page)
    requires Structure(cfg, h, NoSplit) && CutOk(cfg, h, a, l, d, r)
    ensures Siblings(cfg, CutMemory(h, a, l, d, r))
  {
    hide LinksBut, OwnLinks, Disjoint, TopOk, Shapes;
    var g := CutMemory(h, a, l, d, r);
    forall b | b in g.pages
      ensures SiblingOk(cfg, g, g.pages[b])
    {
      assert SiblingOk(cfg, h, h.pages[if b == d then a else b]);
    }
  }

  /** Siblings lie to the right, so neither page of a cut can become its own sibling or the other's. */
  lemma SiblingsNeverCycle(cfg: Config, h: Memory, p: Pending, a: Addr, l: Page, d: Addr, r: Page)
    requires Structure(cfg, h, p) && CutOk(cfg, h, a, l, d, r)
    ensures d != a && r.sibling != a && r.sibling != d
    ensures r.sibling != NULL ==> r.sibling in h.pages && h.pages[r.sibling].lo == r.hi
  {
    assert SiblingOk(cfg, h, h.pages[a]) && Shape(cfg, h.pages[a]);
    hide LinksBut, OwnLinks, Disjoint, Siblings, Shapes, Shape;
  }

  lemma CutTop(cfg: Config, h: Memory, a: Addr, l: Page, d: Addr, r: Page)
    requires TopOk(cfg, h, NoSplit) && a in h.pages && d !in h.pages && d != NULL
    requires h.pages[a].Level() == h.pages[h.root].Level() <==> a == h.root
    requires l.Level() == r.Level() == h.pages[a].Level()
    requires l.lo == h.pages[a].lo && l.hi == r.lo && r.hi == h.pages[a].hi
    ensures TopOk(cfg, CutMemory(h, a, l, d, r), Split(r.lo, d, r.Level() + 1))
    ensures PendingOk(CutMemory(h, a, l, d, r), Split(r.lo, d, r.Level() + 1))
  {
    hide LevelsUpTo;
    CutLevels(h, a, l, d, r, h.pages[h.root].Level());
    var g := CutMemory(h, a, l, d, r);
    var p := Split(r.lo, d, r.Level() + 1);
    assert g.pages[h.root].Level() == h.pages[h.root].Level();
    assert AtTop(g, p) <==> a == h.root;
  }

  lemma CutLevels(h: Memory, a: Addr, l: Page, d: Addr, r: Page, level: nat)
    requires LevelsUpTo(h, level) && a in h.pages && l.Level() == r.Level() == h.pages[a].Level()
    ensures LevelsUpTo(CutMemory(h, a, l, d, r), level) && h.pages[a].Level() <= level
  {
  }

  lemma CutLinks(h: Memory, a: Addr, l: Page, d: Addr, r: Page, n: Page, i: nat)
    requires a in h.pages && d !in h.pages && l.Level() == r.Level() == h.pages[a].Level()
    requires l.lo == h.pages[a].lo && l.hi == r.lo && r.hi == h.pages[a].hi
    requires n.Inner? && i <= |n.records| && LinkOk(h, NoSplit, n, i)
    ensures LinkOk(CutMemory(h, a, l, d, r), Split(r.lo, d, r.Level() + 1), n, i)
  {
  }

  /** After a cut the separator is pending one level above. */
  lemma Cut(cfg: Config, h: Memory, a: Addr, l: Page, d: Addr, r: Page)
    requires Structure(cfg, h, NoSplit) && CutOk(cfg, h, a, l, d, r)
    ensures Structure(cfg, CutMemory(h, a, l, d, r), Split(r.lo, d, r.Level() + 1))
  {
    var g := CutMemory(h, a, l, d, r);
    var p := Split(r.lo, d, r.Level() + 1);
    CutDisjoint(cfg, h, a, l, d, r);
    CutSiblings(cfg, h, a, l, d, r);
    RootAlone(cfg, h, a);
    CutTop(cfg, h, a, l, d, r);
    CutShapes(cfg, h, a, l, d, r);
    CutAllLinks(cfg, h, a, l, d, r);
    hide Disjoint, Siblings, TopOk, PendingOk, Shapes, Shape, LinksBut, OwnLinks;
  }

  lemma CutShapes(cfg: Config, h: Memory, a: Addr, l: Page, d: Addr, r: Page)
    requires Shapes(cfg, h) && CutOk(cfg, h, a, l, d, r)
    ensures Shapes(cfg, CutMemory(h, a, l, d, r))
  {
    hide Shape, OwnLinks;
  }

  lemma CutAllLinks(cfg: Config, h: Memory, a: Addr, l: Page, d: Addr, r: Page)
    requires LinksBut(h, NoSplit, {}) && CutOk(cfg, h, a, l, d, r)
    ensures LinksBut(CutMemory(h, a, l, d, r), Split(r.lo, d, r.Level() + 1), {})
  {
    hide Shape;
    var g := CutMemory(h, a, l, d, r);
    var p := Split(r.lo, d, r.Level() + 1);
    forall b | b in g.pages
      ensures OwnLinks(g, p, g.pages[b])
    {
      hide LinkOk;
      var n := g.pages[b];
      assert OwnLinks(h, NoSplit, n);
      if n.Inner? {
        forall i | 0 <= i <= |n.records|
          ensures LinkOk(g, p, n, i)
        {
          CutLinks(h, a, l, d, r, n, i);
        }
      }
    }
  }

  /** The halves of a full inner page: record `m` moves up, its child becomes the leftmost of the
      right half. */
  function LeftHalf(w: Page, m: nat, d: Addr): Page
    requires w.Inner? && m < |w.records|
  {
    w.(hi := w.records[m].key, sibling := d, records := w.records[..m])
  }

  function RightHalf(w: Page, m: nat): Page
    requires w.Inner? && m < |w.records|
  {
    Inner(w.records[m].key, w.hi, w.sibling, w.height, w.records[m].ptr, w.records[m + 1..])
  }

  lemma HalvesLinks(h: Memory, w: Page, m: nat, d: Addr)
    requires w.Inner? && m < |w.records| && OwnLinks(h, NoSplit, w)
    ensures OwnLinks(h, NoSplit, LeftHalf(w, m, d)) && OwnLinks(h, NoSplit, RightHalf(w, m))
  {
    var l, r := LeftHalf(w, m, d), RightHalf(w, m);
    forall i | 0 <= i <= |l.records|
      ensures LinkOk(h, NoSplit, l, i)
    {
      assert LinkOk(h, NoSplit, w, i);
    }
    forall i | 0 <= i <= |r.records|
      ensures LinkOk(h, NoSplit, r, i)
    {
      assert LinkOk(h, NoSplit, w, m + 1 + i);
    }
  }

  /** Cutting a full inner page at its middle record. */
  lemma HalvesCut(cfg: Config, h: Memory, a: Addr, m: nat, d: Addr)
    requires Structure(cfg, h, NoSplit) && a in h.pages && h.pages[a].Inner? && d !in h.pages && d != NULL
    requires 1 <= m && m + 1 < |h.pages[a].records|
    ensures var w := h.pages[a]; CutOk(cfg, h, a, LeftHalf(w, m, d), d, RightHalf(w, m))
  {
    var w := h.pages[a];
    assert Shape(cfg, w) && OwnLinks(h, NoSplit, w);
    HalvesLinks(h, w, m, d);
  }

  // ---- A new root -------------------------------------------------------------------------------------

  function NewRoot(cfg: Config, root: Addr, p: Pending): Page
    requires p.Split?
  {
    Inner(0, cfg.maxKey, NULL, p.level, root, [Record(p.sep, p.right)])
  }

  lemma RootGrows(cfg: Config, h: Memory, p: Pending, d: Addr)
    requires Structure(cfg, h, p) && AtTop(h, p) && d !in h.pages && d != NULL
    ensures Structure(cfg, Put(h, d, NewRoot(cfg, h.root, p)).(root := d), NoSplit)
  {
    RootLinks(cfg, h, p, d);
    RootSiblings(cfg, h, p, d);
    RootDisjoint(cfg, h, p, d);
    RootTop(cfg, h, p, d);
    hide Siblings, LinksBut, Shapes, Disjoint, TopOk;
  }

  lemma RootTop(cfg: Config, h: Memory, p: Pending, d: Addr)
    requires TopOk(cfg, h, p) && AtTop(h, p) && d !in h.pages && d != NULL
    ensures TopOk(cfg, Put(h, d, NewRoot(cfg, h.root, p)).(root := d), NoSplit)
  {
    var g := Put(h, d, NewRoot(cfg, h.root, p)).(root := d);
    assert LevelsUpTo(g, p.level);
  }

  lemma RootDisjoint(cfg: Config, h: Memory, p: Pending, d: Addr)
    requires Structure(cfg, h, p) && AtTop(h, p) && d !in h.pages && d != NULL
    ensures var g := Put(h, d, NewRoot(cfg, h.root, p)).(root := d);
      Disjoint(g) && Shapes(cfg, g)
  {
    hide Siblings, LinksBut, Shape;
    var g := Put(h, d, NewRoot(cfg, h.root, p)).(root := d);
    RootShape(cfg, h, p);
    assert Shapes(cfg, g);
    forall x, y | x in g.pages && y in g.pages && x != y && g.pages[x].Level() == g.pages[y].Level()
      ensures Apart(g.pages[x], g.pages[y])
    {
      assert x != d && y != d;
      assert Apart(h.pages[x], h.pages[y]);
    }
  }

  lemma RootShape(cfg: Config, h: Memory, p: Pending)
    requires Structure(cfg, h, p) && AtTop(h, p)
    ensures Shape(cfg, NewRoot(cfg, h.root, p))
  {
    ShapeOf(cfg, h, p.right);
    ShapeOf(cfg, h, h.root);
    hide Siblings, LinksBut, Shapes, Disjoint;
  }

  lemma RootSiblings(cfg: Config, h: Memory, p: Pending, d: Addr)
    requires Siblings(cfg, h) && p.Split? && d !in h.pages
    ensures Siblings(cfg, Put(h, d, NewRoot(cfg, h.root, p)).(root := d))
  {
    var g := Put(h, d, NewRoot(cfg, h.root, p)).(root := d);
    assert SameFences(h, g);
    forall b | b in h.pages
      ensures SiblingOk(cfg, g, h.pages[b])
    {
      hide SiblingOk, SameFences;
      SiblingMoves(cfg, h, g, h.pages[b]);
    }
  }

  lemma RootLinks(cfg: Config, h: Memory, p: Pending, d: Addr)
    requires Structure(cfg, h, p) && AtTop(h, p) && d !in h.pages && d != NULL
    ensures LinksBut(Put(h, d, NewRoot(cfg, h.root, p)).(root := d), NoSplit, {})
  {
    hide Siblings, Disjoint, Shapes;
    var n := NewRoot(cfg, h.root, p);
    var g := Put(h, d, n).(root := d);
    assert forall i :: 0 <= i <= 1 ==> LinkOk(g, NoSplit, n, i);
    forall b, i | b in h.pages && h.pages[b].Inner? && 0 <= i <= |h.pages[b].records|
      ensures LinkOk(g, NoSplit, h.pages[b], i)
    {
      assert OwnLinks(h, p, h.pages[b]) && LinkOk(h, p, h.pages[b], i);
    }
    forall b | b in g.pages
      ensures OwnLinks(g, NoSplit, g.pages[b])
    {
    }
  }
}
