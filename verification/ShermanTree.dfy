/** The Sherman index for one client without a cache: searches, inserts with leaf and inner splits and
    root replacement, and the loops they are made of. */
module ShermanTree {
  import opened Bits
  import opened Fresh
  import opened Histories
  import opened ShermanPages
  import opened ShermanContents
  import opened ShermanSteps

  /** Levels a path has room for. */
  const MAX_LEVEL := 7

  // ---- Loops over one page -----------------------------------------------------------------------

  /** The child to descend to. */
  method PickChild(n: Page, key: Key) returns (next: Addr)
    requires n.Inner? && 1 <= |n.records|
    ensures next == n.Kid(Route(n.records, key))
  {
    if key < n.records[0].key {
      next := n.leftmost;
    } else {
      var found := false;
      next := n.records[|n.records| - 1].ptr;
      var i := 1;
      while !found && i < |n.records|
        invariant 1 <= i <= |n.records| + 1
        invariant !found ==> i <= |n.records| && RouteFrom(n.records, key, 0) == RouteFrom(n.records, key, i)
        invariant !found ==> next == n.records[|n.records| - 1].ptr
        invariant found ==> next == n.Kid(Route(n.records, key))
        decreases !found, |n.records| - i
      {
        if key < n.records[i].key {
          next := n.records[i - 1].ptr;
          found := true;
        }
        i := i + 1;
      }
    }
  }

  lemma {:induction false} RouteIs(records: seq<Record>, key: Key, i: nat, r: nat)
    requires i <= r <= |records| && (forall j :: i <= j < r ==> records[j].key <= key)
    requires r < |records| ==> key < records[r].key
    ensures RouteFrom(records, key, i) == r
    decreases |records| - i
  {
    if i < r {
      RouteIs(records, key, i + 1, r);
    }
  }

  /** The place of a key among the records, from the last one down. */
  method FindPlace(buffer: array<Record>, cnt: nat, key: Key) returns (update: bool, index: nat)
    requires cnt <= buffer.Length && Ascending(buffer[..cnt])
    ensures update ==> index < cnt && buffer[index].key == key
    ensures !update ==> index == Route(buffer[..cnt], key) && forall j :: 0 <= j < cnt ==> buffer[j].key != key
  {
    update, index := false, 0;
    var i := cnt;
    while i > 0
      invariant 0 <= i <= cnt && !update && index == 0
      invariant forall j :: i <= j < cnt ==> key < buffer[j].key
    {
      i := i - 1;
      if buffer[i].key == key {
        return true, i;
      } else if buffer[i].key < key {
        index := i + 1;
        break;
      }
    }
    var s := buffer[..cnt];
    assert forall j :: 0 <= j < index ==> s[j].key < key by {
      assert forall j :: 0 <= j < index - 1 ==> s[j].key < s[index - 1].key;
    }
    RouteIs(s, key, 0, index);
    assert forall j :: 0 <= j < cnt ==> s[j] == buffer[j];
  }

  /** Shifts the records from `index` on and puts the new one in place. */
  method ShiftIn(buffer: array<Record>, cnt: nat, index: nat, r: Record)
    requires index <= cnt < buffer.Length
    modifies buffer
    ensures buffer[..cnt + 1] == old(buffer[..index]) + [r] + old(buffer[index..cnt])
  {
    var i := cnt;
    while i > index
      invariant index <= i <= cnt
      invariant forall j :: 0 <= j <= i && j < cnt ==> buffer[j] == old(buffer[j])
      invariant forall j :: i < j <= cnt ==> buffer[j] == old(buffer[j - 1])
    {
      buffer[i] := buffer[i - 1];
      i := i - 1;
    }
    buffer[index] := r;
  }

  /** The page with a separator entered: the buffer has one slot more than the records use. */
  method EnterRecord(n: Page, key: Key, ptr: Addr, size: nat) returns (w: Page)
    requires n.Inner? && |n.records| < size && Ascending(n.records)
    ensures (forall j :: 0 <= j < |n.records| ==> n.records[j].key != key) ==> w == WithRecord(n, key, ptr)
    ensures forall i :: 0 <= i < |n.records| && n.records[i].key == key ==>
      w == n.(records := n.records[i := Record(key, ptr)])
  {
    var cnt := |n.records|;
    var buffer := new Record[size](_ => Record(0, NULL));
    for i := 0 to cnt
      invariant buffer[..i] == n.records[..i]
    {
      buffer[i] := n.records[i];
    }
    assert buffer[..cnt] == n.records[..cnt] == n.records;
    var update, index := FindPlace(buffer, cnt, key);
    if update {
      assert n.records[index] == buffer[..cnt][index];
      buffer[index] := Record(key, ptr);
      assert buffer[..cnt] == n.records[index := Record(key, ptr)];
      w := n.(records := buffer[..cnt]);
    } else {
      assert forall j :: 0 <= j < cnt ==> n.records[j] == buffer[..cnt][j] == buffer[j];
      assert buffer[..index] == n.records[..index] && buffer[index..cnt] == n.records[index..];
      ShiftIn(buffer, cnt, index, Record(key, ptr));
      w := n.(records := buffer[..cnt + 1]);
    }
  }

  /** The two pages a full inner page becomes. */
  method SplitRecords(w: Page, sibling: Addr) returns (l: Page, r: Page)
    requires w.Inner? && 3 <= |w.records|
    ensures l == LeftHalf(w, |w.records| / 2, sibling) && r == RightHalf(w, |w.records| / 2)
  {
    var cnt := |w.records|;
    var m := cnt / 2;
    var sep := w.records[m].key;
    var buffer := new Record[cnt](_ => Record(0, NULL));
    for i := m + 1 to cnt
      invariant buffer[..i - (m + 1)] == w.records[m + 1..i]
    {
      buffer[i - (m + 1)] := w.records[i];
    }
    var rest := buffer[..cnt - (m + 1)];
    assert rest == w.records[m + 1..cnt] == w.records[m + 1..];
    r := Inner(sep, w.hi, w.sibling, w.height, w.records[m].ptr, rest);
    l := w.(hi := sep, sibling := sibling, records := w.records[..m]);
  }

  /** The scan of a leaf for an insert: the entry of the key, or the first empty slot and the number of
      entries in use. */
  method ScanLeaf(items: Items, n: Page, key: Key, ghost m: Model) returns (found: bool, at: nat, cnt: nat, empty: int)
    requires n.Leaf? && Exact(items, m, n) && n.Covers(key)
    ensures found ==> Holds(items, n, at, key)
    ensures !found ==> key !in m && cnt == Used(n.entries)
    ensures !found ==> if cnt == |n.entries| then empty == -1 else 0 <= empty < |n.entries| && n.entries[empty].Empty()
    ensures !found && empty != -1 ==> forall j :: 0 <= j < empty ==> !n.entries[j].Empty()
  {
    found, at, cnt, empty := false, 0, 0, -1;
    var i := 0;
    while i < |n.entries|
      invariant 0 <= i <= |n.entries| && !found && cnt == Used(n.entries[..i])
      invariant forall j: nat :: j < i ==> !Holds(items, n, j, key)
      invariant empty == -1 ==> forall j :: 0 <= j < i ==> !n.entries[j].Empty()
      invariant empty != -1 ==>
        0 <= empty < i && n.entries[empty].Empty() && forall j :: 0 <= j < empty ==> !n.entries[j].Empty()
    {
      assert n.entries[..i + 1][..i] == n.entries[..i];
      assert EntryOk(items, m, n, i);
      if !n.entries[i].Empty() {
        cnt := cnt + 1;
        if n.entries[i].fp == Fp(key) && items[n.entries[i].ptr].key == key {
          return true, i, cnt, empty;
        }
      } else if empty == -1 {
        empty := i;
      }
      i := i + 1;
    }
    assert n.entries[..|n.entries|] == n.entries;
    EmptyExists(n.entries);
    assert key in m ==> Present(items, n, key);
  }

  /** The scan of a leaf for a read. */
  method SearchLeaf(items: Items, n: Page, key: Key, before: Value, ghost m: Model) returns (val: Value)
    requires n.Leaf? && Exact(items, m, n) && n.Covers(key)
    ensures val == if key in m then m[key] else before
  {
    var i := 0;
    while i < |n.entries|
      invariant 0 <= i <= |n.entries| && forall j: nat :: j < i ==> !Holds(items, n, j, key)
    {
      assert EntryOk(items, m, n, i);
      if !n.entries[i].Empty() && n.entries[i].fp == Fp(key) && items[n.entries[i].ptr].key == key {
        return items[n.entries[i].ptr].value;
      }
      i := i + 1;
    }
    assert key in m ==> Present(items, n, key);
    val := before;
  }

  // ---- Sorting a full leaf ---------------------------------------------------------------------------

  /** The entries with their keys, in slot order. */
  method Gather(items: Items, n: Page, ghost m: Model) returns (es: seq<Keyed>)
    requires n.Leaf? && Exact(items, m, n)
    ensures Gathered(items, n, |n.entries|, es) && |es| == Used(n.entries)
  {
    es := [];
    for i := 0 to |n.entries|
      invariant Gathered(items, n, i, es) && |es| == Used(n.entries[..i])
    {
      assert n.entries[..i + 1][..i] == n.entries[..i];
      assert EntryOk(items, m, n, i);
      if !n.entries[i].Empty() {
        var e := Keyed(items[n.entries[i].ptr].key, n.entries[i]);
        GatherOne(items, n, i, es, e);
        es := es + [e];
      } else {
        GatherNone(items, n, i, es);
      }
    }
    assert n.entries[..|n.entries|] == n.entries;
  }

  lemma GatherOne(items: Items, n: Page, i: nat, es: seq<Keyed>, e: Keyed)
    requires n.Leaf? && Distinct(items, n) && i < |n.entries| && Gathered(items, n, i, es)
    requires Holds(items, n, i, e.key) && e.entry == n.entries[i]
    ensures Gathered(items, n, i + 1, es + [e])
  {
    var es' := es + [e];
    forall j | 0 <= j < |es'|
      ensures From(items, n, i + 1, es'[j])
    {
      if j < |es| {
        assert From(items, n, i, es[j]);
        var k: nat :| k < i && Holds(items, n, k, es[j].key) && n.entries[k] == es[j].entry;
        assert k < i + 1;
      }
    }
    forall j | 0 <= j < |es|
      ensures es[j].key != e.key
    {
      assert From(items, n, i, es[j]);
    }
    forall k: nat, x | Holds(items, n, k, x) && k < i + 1
      ensures Listed(es', x)
    {
      if k < i {
        assert Listed(es, x);
        var j :| 0 <= j < |es| && es[j].key == x;
        assert es'[j].key == x;
      } else {
        assert es'[|es|].key == x;
      }
    }
  }

  lemma GatherNone(items: Items, n: Page, i: nat, es: seq<Keyed>)
    requires n.Leaf? && i < |n.entries| && n.entries[i].Empty() && Gathered(items, n, i, es)
    ensures Gathered(items, n, i + 1, es)
  {
    forall j | 0 <= j < |es|
      ensures From(items, n, i + 1, es[j])
    {
      assert From(items, n, i, es[j]);
      var k: nat :| k < i && Holds(items, n, k, es[j].key) && n.entries[k] == es[j].entry;
      assert k < i + 1;
    }
  }

  ghost predicate NoKeyTwice(es: seq<Keyed>) {
    forall i, j :: 0 <= i < j < |es| ==> es[i].key != es[j].key
  }

  method InsertSorted(s: seq<Keyed>, e: Keyed) returns (r: seq<Keyed>)
    requires Sorted(s) && forall k :: 0 <= k < |s| ==> s[k].key != e.key
    ensures Sorted(r) && multiset(r) == multiset(s) + multiset{e}
  {
    var j := 0;
    while j < |s| && s[j].key < e.key
      invariant 0 <= j <= |s| && forall k :: 0 <= k < j ==> s[k].key < e.key
    {
      j := j + 1;
    }
    hide Sorted;
    r := s[..j] + [e] + s[j..];
    assert s == s[..j] + s[j..];
    InsertedSorted(s, j, e);
  }

  lemma InsertedSorted(s: seq<Keyed>, j: nat, e: Keyed)
    requires Sorted(s) && j <= |s| && (forall k :: 0 <= k < j ==> s[k].key < e.key)
    requires j < |s| ==> e.key < s[j].key
    ensures Sorted(s[..j] + [e] + s[j..])
  {
    var r := s[..j] + [e] + s[j..];
    assert forall k :: 0 <= k < |r| ==> r[k] == if k < j then s[k] else if k == j then e else s[k - 1];
    assert forall k :: j < k < |s| ==> s[j].key < s[k].key;
  }

  /** Sorts by key: a permutation in ascending order. */
  method SortByKey(es: seq<Keyed>) returns (r: seq<Keyed>)
    requires NoKeyTwice(es)
    ensures Sorted(r) && multiset(r) == multiset(es)
  {
    hide Sorted;
    r := [];
    assert Sorted(r) by { NoneSorted(); }
    for i := 0 to |es|
      invariant Sorted(r) && multiset(r) == multiset(es[..i])
    {
      forall k | 0 <= k < |r|
        ensures r[k].key != es[i].key
      {
        assert r[k] in multiset(r);
        assert r[k] in es[..i];
      }
      assert es[..i + 1] == es[..i] + [es[i]];
      r := InsertSorted(r, es[i]);
    }
    assert es[..|es|] == es;
  }

  lemma NoneSorted()
    ensures Sorted([])
  {
  }

  lemma SortedGathered(items: Items, n: Page, es: seq<Keyed>, r: seq<Keyed>)
    requires n.Leaf? && Gathered(items, n, |n.entries|, es) && Sorted(r) && multiset(r) == multiset(es)
    ensures Gathered(items, n, |n.entries|, r) && |r| == |es|
  {
    assert |multiset(r)| == |multiset(es)|;
    forall j | 0 <= j < |r|
      ensures From(items, n, |n.entries|, r[j])
    {
      assert r[j] in multiset(es);
      var k :| 0 <= k < |es| && es[k] == r[j];
      assert From(items, n, |n.entries|, es[k]);
    }
    forall i: nat, k | Holds(items, n, i, k) && i < |n.entries|
      ensures Listed(r, k)
    {
      assert Listed(es, k);
      var j :| 0 <= j < |es| && es[j].key == k;
      assert es[j] in multiset(r);
      var x :| 0 <= x < |r| && r[x] == es[j];
    }
  }

  /** The sorted entries written back to the page. */
  method WriteBack(page: array<Entry>, es: seq<Keyed>)
    requires |es| <= page.Length
    modifies page
    ensures page[..] == Filled(es, 0, |es|, page.Length)
  {
    for i := 0 to |es|
      invariant forall j :: 0 <= j < i ==> page[j] == es[j].entry
    {
      page[i] := es[i].entry;
    }
    for i := |es| to page.Length
      invariant forall j :: 0 <= j < |es| ==> page[j] == es[j].entry
      invariant forall j :: |es| <= j < i ==> page[j] == Entry(0, NULL)
    {
      page[i] := Entry(0, NULL);
    }
  }

  /** The entries from `m` to `cnt` move to an empty page and are cleared in the old one. */
  method MoveUpper(page: array<Entry>, right: array<Entry>, m: nat, cnt: nat)
    requires page != right && m <= cnt <= page.Length == right.Length
    requires forall j :: 0 <= j < right.Length ==> right[j] == Entry(0, NULL)
    modifies page, right
    ensures forall j :: 0 <= j < page.Length ==> page[j] == if m <= j < cnt then Entry(0, NULL) else old(page[j])
    ensures forall j :: 0 <= j < right.Length ==> right[j] == if j < cnt - m then old(page[m + j]) else Entry(0, NULL)
  {
    for i := m to cnt
      invariant forall j :: 0 <= j < page.Length ==> page[j] == if m <= j < i then Entry(0, NULL) else old(page[j])
      invariant forall j :: 0 <= j < right.Length ==> right[j] == if j < i - m then old(page[m + j]) else Entry(0, NULL)
    {
      right[i - m] := page[i];
      page[i] := Entry(0, NULL);
    }
  }

  /** The two leaves a full leaf becomes: entries written back in order, the upper half moved to the
      sibling and cleared. */
  method SplitEntries(n: Page, es: seq<Keyed>, sibling: Addr, size: nat) returns (l: Page, r: Page)
    requires n.Leaf? && 1 <= |es| <= size
    ensures l == LeftLeaf(n, es, |es| / 2, sibling, size) && r == RightLeaf(n, es, |es| / 2, size)
  {
    var page := new Entry[size](_ => Entry(0, NULL));
    var right := new Entry[size](_ => Entry(0, NULL));
    WriteBack(page, es);
    var cnt, m := |es|, |es| / 2;
    ghost var whole := page[..];
    MoveUpper(page, right, m, cnt);
    assert page[..] == Filled(es, 0, m, size) by {
      assert forall j :: 0 <= j < size ==> page[j] == if m <= j < cnt then Entry(0, NULL) else whole[j];
    }
    assert right[..] == Filled(es, m, cnt, size) by {
      assert forall j :: 0 <= j < size ==> right[j] == if j < cnt - m then whole[m + j] else Entry(0, NULL);
    }
    l := Leaf(n.lo, es[m].key, sibling, page[..]);
    r := Leaf(es[m].key, n.hi, n.sibling, right[..]);
  }

  /** The memory after a leaf took a new item and was cut. */
  ghost function LeafCutMemory(cfg: Config, h: Memory, a: Addr, i: nat, x: Addr, it: Item, es: seq<Keyed>,
                               d: Addr): Memory
    requires a in h.pages && h.pages[a].Leaf? && i < |h.pages[a].entries| && 0 < |es| <= cfg.leaf
  {
    var w := WithEntry(h.pages[a], i, it.key, x);
    CutMemory(WithItem(h, x, it), a, LeftLeaf(w, es, |es| / 2, d, cfg.leaf), d, RightLeaf(w, es, |es| / 2, cfg.leaf))
  }

  // ---- What an insert leaves behind ------------------------------------------------------------------

  /** Work above the leaves: leaves and items stay. */
  ghost predicate LeavesStay(h: Memory, g: Memory) {
    g.items == h.items && forall b :: b in h.pages && h.pages[b].Leaf? ==> b in g.pages && g.pages[b] == h.pages[b]
  }

  ghost predicate LeafFor(h: Memory, a: Addr, key: Key) {
    a in h.pages && h.pages[a].Leaf? && h.pages[a].Covers(key)
  }

  /** The update: the item of the key is overwritten, and that is all. */
  ghost predicate Overwritten(h: Memory, g: Memory, a: Addr, it: Item) {
    LeafFor(h, a, it.key) && exists i: nat :: Holds(h.items, h.pages[a], i, it.key)
                                              && g == WithItem(h, h.pages[a].entries[i].ptr, it)
  }

  /** The insertion into a leaf with two empty slots or more: a new item, and its entry in the first empty
      slot. */
  ghost predicate EntryAdded(h: Memory, g: Memory, a: Addr, x: Addr, it: Item) {
    LeafFor(h, a, it.key) && exists i: nat :: FirstEmpty(h.pages[a], i)
                                              && g == Put(WithItem(h, x, it), a, WithEntry(h.pages[a], i, it.key, x))
  }

  ghost predicate FirstEmpty(n: Page, i: nat) {
    && n.Leaf? && i < |n.entries| && n.entries[i].Empty() && forall j :: 0 <= j < i ==> !n.entries[j].Empty()
  }

  /** The insertion that fills a leaf: the lower half of its entries stays, the upper half is in the new
      sibling at `d`, and no other leaf has changed. */
  ghost predicate LeafHalved(h: Memory, g: Memory, a: Addr, x: Addr, it: Item, d: Addr) {
    && LeafFor(h, a, it.key) && d !in h.pages && a in g.pages && d in g.pages && g.items == h.items[x := it]
    && var o, l, r := h.pages[a], g.pages[a], g.pages[d];
    && l.Leaf? && r.Leaf? && l.lo == o.lo && l.hi == r.lo && r.hi == o.hi && l.sibling == d && r.sibling == o.sibling
    && Used(l.entries) == (Used(o.entries) + 1) / 2
    && Used(r.entries) == Used(o.entries) + 1 - (Used(o.entries) + 1) / 2
    && forall b :: b in h.pages && b != a && h.pages[b].Leaf? ==> b in g.pages && g.pages[b] == h.pages[b]
  }

  /** A leaf that one more entry fills is cut, no other one is. */
  ghost predicate Inserted(cfg: Config, h: Memory, g: Memory, present: bool, a: Addr, x: Addr, it: Item) {
    && LeafFor(h, a, it.key)
    && if present then Overwritten(h, g, a, it)
       else if Used(h.pages[a].entries) + 1 == cfg.leaf then
         x !in h.items && exists d :: LeafHalved(h, g, a, x, it, d)
       else x !in h.items && EntryAdded(h, g, a, x, it)
  }

  // ---- The index ---------------------------------------------------------------------------------------

  /** On every level from `from` up to the root the path has the page that covers the key. */
  ghost predicate Trail(h: Memory, path: seq<Addr>, k: Key, from: nat) {
    && |path| == MAX_LEVEL && h.root in h.pages && RootLevel(h) < MAX_LEVEL
    && forall l :: from <= l <= RootLevel(h) ==> At(h, path[l], l, k)
  }

  /** What a search of one page found. `sibling` is null unless the key lies right of the page. */
  datatype SearchResult = SearchResult(isLeaf: bool, level: nat, sibling: Addr, next: Addr, val: Value)

  class ShermanIndex {
    const cfg: Config
    const path: array<Addr>
    var mem: Memory
    ghost var model: Model

    ghost predicate Valid()
      reads this
    {
      path.Length == MAX_LEVEL && Inv(cfg, mem, model, NoSplit)
    }

    /** An empty leaf for all keys. */
    constructor (cfg: Config, rootAddr: Addr)
      requires cfg.Ok() && rootAddr != NULL
      ensures Valid() && model == map[] && this.cfg == cfg && fresh(path) && path.Length == 7 && mem.items == map[]
    {
      this.cfg := cfg;
      path := new Addr[MAX_LEVEL](_ => NULL);
      var root := Leaf(0, cfg.maxKey, NULL, seq(cfg.leaf, _ => Entry(0, NULL)));
      mem := Memory(map[rootAddr := root], map[], rootAddr);
      model := map[];
      EmptyTree(cfg, rootAddr, root);
    }

    method Allocate() returns (a: Addr)
      ensures a !in mem.pages && a !in mem.items && a != NULL
    {
      FreshExists(mem.pages.Keys + mem.items.Keys + {NULL});
      a :| a !in mem.pages.Keys + mem.items.Keys + {NULL};
    }

    /** One page of a search. A key right of the page's fence leads to the sibling, which starts where
        the page ends. */
    method SearchNode(a: Addr, key: Key, before: Value) returns (res: SearchResult)
      requires Valid() && a in mem.pages && mem.pages[a].lo <= key < cfg.maxKey && mem.pages[a].Level() < MAX_LEVEL
      modifies path
      ensures path[..] == old(path[..])[mem.pages[a].Level() := a]
      ensures res.level == mem.pages[a].Level() && (res.isLeaf <==> res.level == 0)
      ensures res.sibling != NULL <==> mem.pages[a].hi <= key
      ensures res.sibling != NULL ==> res.sibling in mem.pages && mem.pages[res.sibling].lo == mem.pages[a].hi
      ensures key < mem.pages[a].hi && !res.isLeaf ==>
        At(mem, res.next, res.level - 1, key) && res.val == before
      ensures key < mem.pages[a].hi && res.isLeaf ==> res.val == if key in model then model[key] else before
    {
      var page := mem.pages[a];
      assert Shape(cfg, page) && SiblingOk(cfg, mem, page) && Exact(mem.items, model, page) && NULL !in mem.pages;
      hide Exact, Sizes;
      path[page.Level()] := a;
      if key >= page.hi {
        return SearchResult(page.Leaf?, page.Level(), page.sibling, NULL, before);
      }
      if page.Leaf? {
        var val := SearchLeaf(mem.items, page, key, before, model);
        return SearchResult(true, 0, NULL, NULL, val);
      }
      StepDown(cfg, mem, NoSplit, a, key);
      var next := PickChild(page, key);
      res := SearchResult(false, page.height, NULL, next, before);
    }

    /** A read visits one page on each level, never a sibling, and finds the key unless it is absent or
        its value is the smallest one. */
    method Read(key: Key) returns (found: bool, val: Value, visited: nat)
      requires Valid() && key < cfg.maxKey && RootLevel(mem) < MAX_LEVEL
      modifies path
      ensures found <==> key in model && model[key] != 0
      ensures found ==> val == model[key]
      ensures visited == RootLevel(mem) + 1
    {
      RootCovers(cfg, mem, key);
      hide Inv;
      var p := mem.root;
      visited := 0;
      while true
        invariant p in mem.pages && At(mem, p, mem.pages[p].Level(), key) && mem.pages[p].Level() < MAX_LEVEL
        invariant visited + mem.pages[p].Level() == RootLevel(mem)
        decreases mem.pages[p].Level()
      {
        var res := SearchNode(p, key, 0);
        assert res.sibling == NULL;
        visited := visited + 1;
        if res.isLeaf {
          return res.val != 0, res.val, visited;
        }
        p := res.next;
      }
    }

    method BeforeOperation()
      requires path.Length == MAX_LEVEL
      modifies path
      ensures forall l :: 0 <= l < MAX_LEVEL ==> path[l] == NULL
    {
      for i := 0 to MAX_LEVEL
        invariant forall l :: 0 <= l < i ==> path[l] == NULL
      {
        path[i] := NULL;
      }
    }

    /** The descent of an insert: it stops above the leaf and leaves its way in the path. */
    method Descend(key: Key) returns (leaf: Addr)
      requires Valid() && key < cfg.maxKey && RootLevel(mem) < MAX_LEVEL
      modifies path
      ensures At(mem, leaf, 0, key) && Trail(mem, path[..], key, 1)
      ensures forall l :: RootLevel(mem) < l < MAX_LEVEL ==> path[l] == old(path[l])
    {
      RootCovers(cfg, mem, key);
      hide Inv;
      leaf := mem.root;
      var level := mem.pages[leaf].Level();
      while true
        invariant leaf in mem.pages && level == mem.pages[leaf].Level() && At(mem, leaf, level, key)
          && level <= RootLevel(mem)
        invariant Trail(mem, path[..], key, level + 1)
        invariant forall l :: RootLevel(mem) < l < MAX_LEVEL ==> path[l] == old(path[l])
        decreases level
      {
        ghost var before := path[..];
        var res := SearchNode(leaf, key, 0);
        assert res.sibling == NULL;
        assert forall l :: 0 <= l < MAX_LEVEL ==> path[..][l] == if l == level then leaf else before[l];
        if !res.isLeaf {
          leaf, level := res.next, res.level - 1;
          if res.level != 1 {
            continue;
          }
        }
        break;
      }
    }

    /** Inserts or overwrites. The path has room on all levels as long as the root is below level 7. */
    method Insert(key: Key, value: Value) returns (ok: bool)
      requires Valid() && key < cfg.maxKey && RootLevel(mem) < MAX_LEVEL
      modifies `mem, `model, path
      ensures Valid() && model == old(model)[key := value] && ok
      ensures exists a, x :: Inserted(cfg, old(mem), mem, key in old(model), a, x, Item(key, value))
      ensures |mem.items| + |old(model)| == |old(mem).items| + |model|
      ensures Trail(old(mem), path[..], key, 1) && forall l :: old(RootLevel(mem)) < l < 7 ==> path[l] == NULL
    {
      BeforeOperation();
      hide Inv, Inserted;
      var root := mem.root;
      var leaf := Descend(key);
      var x := InsertToLeaf(leaf, key, value, root);
      assert Inserted(cfg, old(mem), mem, key in old(model), leaf, x, Item(key, value));
      LeafFacts(cfg, old(mem), old(model), leaf, key);
      InsertedCounts(cfg, old(mem), old(model), mem, leaf, x, Item(key, value));
      ok := true;
    }

    /** A sequence of upserts by one client, up to the first that would leave the path; with no more
        keys than a root on level 7 needs there is none. */
    method InsertAll(ops: seq<(Key, Value)>) returns (done: nat)
      requires Valid() && forall i :: 0 <= i < |ops| ==> ops[i].0 < cfg.maxKey
      modifies `mem, `model, path
      ensures Valid() && done <= |ops| && model == Upserts(old(model), ops[..done])
      ensures done < |ops| ==> mem.root in mem.pages && RootLevel(mem) >= 7
      ensures |old(model)| + |ops| <= Bound(cfg, 7) ==> done == |ops|
      ensures |mem.items| + |old(model)| == |old(mem).items| + |model|
    {
      HasRoot(cfg, mem, model);
      assert ops[..0] == [] && Upserts(model, []) == model;
      hide Inv, Bound, Upserts, Inserted, Trail;
      done := 0;
      while done < |ops| && RootLevel(mem) < MAX_LEVEL
        invariant Valid() && mem.root in mem.pages && done <= |ops| && model == Upserts(old(model), ops[..done])
        invariant |mem.items| + |old(model)| == |old(mem).items| + |model|
      {
        UpsertsStep(old(model), ops, done);
        var _ := Insert(ops[done].0, ops[done].1);
        HasRoot(cfg, mem, model);
        done := done + 1;
      }
      FewKeysAllDone(cfg, mem, old(model), ops, done);
    }

    /** A present key gets its value in place; an absent one gets an entry in the first empty slot, and
        a leaf that this fills is split. The key is never right of the leaf. */
    method InsertToLeaf(a: Addr, key: Key, value: Value, root: Addr) returns (ghost at: Addr)
      requires Valid() && At(mem, a, 0, key) && Trail(mem, path[..], key, 1) && root == mem.root && key < cfg.maxKey
      modifies `mem, `model
      ensures Valid() && model == old(model)[key := value]
      ensures Inserted(cfg, old(mem), mem, key in old(model), a, at, Item(key, value))
    {
      hide Trail, LeafHalved, Inserted, FirstEmpty;
      var page := mem.pages[a];
      ghost var h, m := mem, model;
      LeafFacts(cfg, mem, model, a, key);
      hide Inv;
      assert page.lo <= key < page.hi;
      var it := Item(key, value);
      var found, slot, cnt, empty := ScanLeaf(mem.items, page, key, model);
      at := NULL;
      if found {
        UpdateInv(cfg, mem, model, a, slot, it);
        mem := WithItem(mem, page.entries[slot].ptr, it);
        model := model[key := value];
        InsertedByUpdate(cfg, h, m, mem, a, slot, it);
        return;
      }
      assert cnt != cfg.leaf && empty != -1;
      var x := Allocate();
      at := x;
      if cnt + 1 != cfg.leaf {
        InsertInv(cfg, mem, model, a, empty, x, it);
        assert FirstEmpty(page, empty) by { IsFirstEmpty(page, empty); }
        mem := Put(WithItem(mem, x, it), a, WithEntry(page, empty, key, x));
        model := model[key := value];
        InsertedByEntry(cfg, h, mem, a, empty, x, it);
        return;
      }
      ghost var d := SplitLeaf(a, empty, x, it, root, path[..]);
      InsertedByCut(cfg, h, mem, a, x, it, d);
    }

    /** A leaf with one empty slot left takes the entry, is sorted and cut at the middle, and its
        separator goes up. */
    method SplitLeaf(a: Addr, i: nat, x: Addr, it: Item, root: Addr, ghost trail: seq<Addr>) returns (ghost at: Addr)
      requires path.Length == MAX_LEVEL && path[..] == trail && NewEntry(cfg, mem, model, a, i, x, it)
        && Used(mem.pages[a].entries) + 1 == cfg.leaf
      requires Trail(mem, trail, it.key, 1) && root == mem.root
      modifies `mem, `model
      ensures Valid() && model == old(model)[it.key := it.value]
      ensures LeafHalved(old(mem), mem, a, x, it, at)
    {
      hide NewEntry, Inv, Trail, At, AtTop, Gathered, Sorted, Filled, Exact, Used, RootLevel, LeafCutMemory,
           LeafHalved, LeavesStay;
      LeafImage(cfg, mem, model, a, i, x, it);
      ghost var h, m := mem, model;
      var sep, d;
      ghost var es;
      sep, d, es := CutLeaf(a, i, x, it);
      LeafCut(cfg, h, m, trail, a, i, x, it, es, d);
      ghost var f := mem;
      GoUp(a, sep, d, root, 1, it.key, trail);
      HalvedLeaf(cfg, h, f, mem, a, i, x, it, es, d);
      at := d;
    }

    /** After the cut of the page at `a`: a new root, or the page above on the path. */
    method GoUp(a: Addr, sep: Key, v: Addr, root: Addr, level: nat, ghost k: Key, ghost trail: seq<Addr>)
      requires path.Length == MAX_LEVEL && path[..] == trail && Inv(cfg, mem, model, Split(sep, v, level))
        && root == mem.root
      requires Trail(mem, trail, k, level) && 1 <= level <= RootLevel(mem) + 1
      requires AtTop(mem, Split(sep, v, level)) <==> a == mem.root
      requires a != mem.root ==> level <= RootLevel(mem) && level < |trail| && At(mem, trail[level], level, sep)
      modifies `mem
      ensures Valid() && LeavesStay(old(mem), mem)
      decreases RootLevel(mem) + 1 - level, 1
    {
      hide Inv, Trail, At, AtTop, LeavesStay;
      if root == a {
        var _ := UpdateRootOffset(a, sep, v, level, root);
      } else {
        InsertToInternal(path[level], sep, v, root, level, k, trail);
      }
    }

    /** The sorted entries of a leaf image. */
    method SortedEntries(w: Page, ghost m: Model) returns (es: seq<Keyed>)
      requires w.Leaf? && Exact(mem.items, m, w)
      ensures Gathered(mem.items, w, |w.entries|, es) && Sorted(es) && |es| == Used(w.entries)
    {
      hide Exact;
      var keyed := Gather(mem.items, w, m);
      assert NoKeyTwice(keyed);
      es := SortByKey(keyed);
      SortedGathered(mem.items, w, keyed, es);
    }

    /** Writes the item, the right half and then the left half. */
    method CutLeaf(a: Addr, i: nat, x: Addr, it: Item) returns (sep: Key, d: Addr, ghost es: seq<Keyed>)
      requires a in mem.pages && mem.pages[a].Leaf? && i < |mem.pages[a].entries| && cfg.Ok()
      requires var w := WithEntry(mem.pages[a], i, it.key, x);
        Exact(mem.items[x := it], model[it.key := it.value], w) && Used(w.entries) == cfg.leaf
      modifies `mem, `model
      ensures model == old(model)[it.key := it.value] && d !in old(mem.pages) && d != NULL && |es| == cfg.leaf
      ensures var w := WithEntry(old(mem.pages[a]), i, it.key, x);
        Gathered(old(mem.items)[x := it], w, |w.entries|, es) && Sorted(es) && sep == es[|es| / 2].key
      ensures mem == LeafCutMemory(cfg, old(mem), a, i, x, it, es, d)
    {
      hide Exact, Gathered, Sorted, Used, Filled;
      mem := WithItem(mem, x, it);
      var w := WithEntry(mem.pages[a], i, it.key, x);
      d := Allocate();
      var l, r;
      l, r, es := HalveLeaf(w, d, model[it.key := it.value]);
      sep := r.lo;
      mem := Put(mem, d, r);
      mem := Put(mem, a, l);
      model := model[it.key := it.value];
    }

    /** The two leaves a full leaf image becomes. */
    method HalveLeaf(w: Page, d: Addr, ghost m: Model) returns (l: Page, r: Page, ghost es: seq<Keyed>)
      requires w.Leaf? && Exact(mem.items, m, w) && Used(w.entries) == cfg.leaf && cfg.Ok()
      ensures Gathered(mem.items, w, |w.entries|, es) && Sorted(es) && |es| == cfg.leaf
      ensures l == LeftLeaf(w, es, |es| / 2, d, cfg.leaf) && r == RightLeaf(w, es, |es| / 2, cfg.leaf)
    {
      hide Exact, Gathered, Sorted, Used, Filled;
      var sorted := SortedEntries(w, m);
      l, r := SplitEntries(w, sorted, d, cfg.leaf);
      es := sorted;
    }

    /** The separator enters the page on the path; a page that this fills is cut at its middle record,
        whose key goes up. The separator is never right of the page and never in it. */
    method InsertToInternal(a: Addr, sep: Key, v: Addr, root: Addr, level: nat, ghost k: Key, ghost trail: seq<Addr>)
      requires path.Length == MAX_LEVEL && path[..] == trail && Inv(cfg, mem, model, Split(sep, v, level))
        && root == mem.root
      requires Trail(mem, trail, k, level) && 1 <= level <= RootLevel(mem) && level < |trail| && trail[level] == a
      requires At(mem, a, level, sep)
      modifies `mem
      ensures Valid() && LeavesStay(old(mem), mem)
      decreases RootLevel(mem) + 1 - level, 0
    {
      ghost var p := Split(sep, v, level);
      hide Inv, Taker, Trail, AtTop, At, Route, WithRecord;
      TakerReady(cfg, mem, model, p, trail, a, k);
      var w := EnteredPage(a, sep, v, p);
      if |w.records| != cfg.inner {
        EnterInv(cfg, mem, model, p, a);
        mem := Put(mem, a, w);
        return;
      }
      var up, d := CutInner(a, w, p, k, trail);
      GoUp(a, up, d, root, level + 1, k, trail);
    }

    /** The page image with the separator: it lies in the page's fence and is not in the page yet. */
    method EnteredPage(a: Addr, sep: Key, v: Addr, ghost p: Pending) returns (w: Page)
      requires Taker(cfg, mem, model, p, a) && p.sep == sep && p.right == v && cfg.Ok()
      ensures a in mem.pages && mem.pages[a].Inner? && w == WithRecord(mem.pages[a], sep, v)
      ensures w.Inner? && |w.records| == |mem.pages[a].records| + 1 <= cfg.inner
    {
      hide Inv, Taker, AtTop, Sizes, Sized, AllExact, KeysBounded, Route;
      TakerFacts(cfg, mem, model, p, a);
      TakerParts(cfg, mem, model, p, a);
      TakerLevel(cfg, mem, model, p, a);
      var page := mem.pages[a];
      assert page.lo <= sep < page.hi;
      w := EnterRecord(page, sep, v, cfg.inner);
      WithRecordParts(page, sep, v, 0);
    }

    method CutInner(a: Addr, w: Page, ghost p: Pending, ghost k: Key, ghost trail: seq<Addr>) returns (up: Key, d: Addr)
      requires path.Length == MAX_LEVEL && path[..] == trail && Taker(cfg, mem, model, p, a)
        && Trail(mem, trail, k, p.level) && cfg.Ok()
      requires |mem.pages[a].records| + 1 == cfg.inner && w == WithRecord(mem.pages[a], p.sep, p.right)
      requires At(mem, a, p.level, k) && w.Inner? && mem.pages[a].Inner?
      modifies `mem
      ensures mem.root == old(mem.root) && mem.root in mem.pages && old(mem.root in mem.pages)
      ensures RootLevel(mem) == old(RootLevel(mem)) >= p.level
      ensures Inv(cfg, mem, model, Split(up, d, p.level + 1)) && LeavesStay(old(mem), mem)
      ensures AtTop(mem, Split(up, d, p.level + 1)) <==> a == mem.root
      ensures Trail(mem, trail, k, p.level + 1)
      ensures a != mem.root ==>
        p.level + 1 <= RootLevel(mem) && p.level + 1 < |trail| && At(mem, trail[p.level + 1], p.level + 1, up)
    {
      hide Inv, Taker, Trail, AtTop, At, Route, RootLevel, WithRecord;
      ghost var h := mem;
      d := Allocate();
      InnerCut(cfg, h, model, p, trail, a, k, d);
      var l, r := SplitRecords(w, d);
      up := w.records[|w.records| / 2].key;
      assert l.lo < up < r.hi;
      mem := Put(mem, d, r);
      mem := Put(mem, a, l);
      assert mem == CutMemory(h, a, l, d, r);
    }

    /** A root over the two halves of the old one. */
    method UpdateRootOffset(left: Addr, sep: Key, right: Addr, level: nat, oldRoot: Addr) returns (ok: bool)
      requires path.Length == MAX_LEVEL && Inv(cfg, mem, model, Split(sep, right, level))
      requires AtTop(mem, Split(sep, right, level)) && left == oldRoot == mem.root
      modifies `mem
      ensures Valid() && ok && LeavesStay(old(mem), mem)
    {
      hide Inv;
      var d := Allocate();
      RootInv(cfg, mem, model, Split(sep, right, level), d);
      mem := Put(mem, d, Inner(0, cfg.maxKey, NULL, level, left, [Record(sep, right)]));
      var seen := mem.root;
      if seen == oldRoot {
        mem := mem.(root := d);
      }
      ok := seen == oldRoot;
    }
  }

  /** A key whose value is the smallest value is in the tree, and a read reports it absent. */
  method SmallestValueReadsAsAbsent(cfg: Config, rootAddr: Addr, key: Key) returns (index: ShermanIndex, found: bool)
    requires cfg.Ok() && rootAddr != NULL && key < cfg.maxKey
    ensures index.Valid() && index.cfg == cfg && index.model == map[key := 0] && !found
  {
    hide Inv, Bound;
    BoundAtLeastTwo(cfg, MAX_LEVEL);
    index := new ShermanIndex(cfg, rootAddr);
    FewKeysLowTree(cfg, index.mem, index.model, MAX_LEVEL);
    var _ := index.Insert(key, 0);
    FewKeysLowTree(cfg, index.mem, index.model, MAX_LEVEL);
    var val, visited;
    found, val, visited := index.Read(key);
  }

  lemma IsFirstEmpty(n: Page, i: nat)
    requires n.Leaf? && i < |n.entries| && n.entries[i].Empty() && forall j :: 0 <= j < i ==> !n.entries[j].Empty()
    ensures FirstEmpty(n, i)
  {
  }

  lemma InsertedByUpdate(cfg: Config, h: Memory, m: Model, g: Memory, a: Addr, i: nat, it: Item)
    requires LeafFor(h, a, it.key) && Exact(h.items, m, h.pages[a]) && Holds(h.items, h.pages[a], i, it.key)
    requires g == WithItem(h, h.pages[a].entries[i].ptr, it)
    ensures it.key in m && Inserted(cfg, h, g, true, a, NULL, it)
  {
    HeldIsPresent(h.items, m, h.pages[a], i, it.key);
  }

  lemma InsertedByEntry(cfg: Config, h: Memory, g: Memory, a: Addr, i: nat, x: Addr, it: Item)
    requires LeafFor(h, a, it.key) && FirstEmpty(h.pages[a], i) && Used(h.pages[a].entries) + 1 != cfg.leaf
    requires x !in h.items && g == Put(WithItem(h, x, it), a, WithEntry(h.pages[a], i, it.key, x))
    ensures Inserted(cfg, h, g, false, a, x, it)
  {
    hide Used;
  }

  lemma InsertedByCut(cfg: Config, h: Memory, g: Memory, a: Addr, x: Addr, it: Item, d: Addr)
    requires LeafFor(h, a, it.key) && Used(h.pages[a].entries) + 1 == cfg.leaf && x !in h.items
    requires LeafHalved(h, g, a, x, it, d)
    ensures Inserted(cfg, h, g, false, a, x, it)
  {
    hide Used, LeafHalved;
  }

  lemma HeldIsPresent(items: Items, m: Model, n: Page, i: nat, key: Key)
    requires n.Leaf? && Exact(items, m, n) && Holds(items, n, i, key)
    ensures key in m && n.entries[i].ptr in items
  {
    assert EntryOk(items, m, n, i);
  }

  lemma OneKeyMore(m: Model, k: Key, v: Value)
    ensures |m[k := v]| == |m| + if k in m then 0 else 1
  {
    assert m[k := v].Keys == m.Keys + {k};
  }

  lemma OneItemMore(items: Items, x: Addr, it: Item)
    ensures |items[x := it]| == |items| + if x in items then 0 else 1
  {
    assert items[x := it].Keys == items.Keys + {x};
  }

  /** One item for each key. */
  lemma InsertedCounts(cfg: Config, h: Memory, m: Model, g: Memory, a: Addr, x: Addr, it: Item)
    requires Inserted(cfg, h, g, it.key in m, a, x, it) && Exact(h.items, m, h.pages[a])
    ensures |g.items| + |m| == |h.items| + |m[it.key := it.value]|
  {
    OneKeyMore(m, it.key, it.value);
    if it.key in m {
      OverwrittenItems(h, m, g, a, it);
    } else {
      OneItemMore(h.items, x, it);
      hide Used, LeafHalved;
      if Used(h.pages[a].entries) + 1 == cfg.leaf {
        var d :| LeafHalved(h, g, a, x, it, d);
        HalvedItems(h, g, a, x, it, d);
      }
    }
  }

  lemma OverwrittenItems(h: Memory, m: Model, g: Memory, a: Addr, it: Item)
    requires Overwritten(h, g, a, it) && Exact(h.items, m, h.pages[a])
    ensures |g.items| == |h.items|
  {
    var i: nat :| Holds(h.items, h.pages[a], i, it.key) && g == WithItem(h, h.pages[a].entries[i].ptr, it);
    OneItemMore(h.items, h.pages[a].entries[i].ptr, it);
  }

  lemma HalvedItems(h: Memory, g: Memory, a: Addr, x: Addr, it: Item, d: Addr)
    requires LeafHalved(h, g, a, x, it, d)
    ensures g.items == h.items[x := it]
  {
  }

  /** The two leaves written, and what is above them. */
  lemma HalvedLeaf(cfg: Config, h: Memory, f: Memory, g: Memory, a: Addr, i: nat, x: Addr, it: Item,
                   es: seq<Keyed>, d: Addr)
    requires LeafFor(h, a, it.key) && i < |h.pages[a].entries| && d !in h.pages
    requires |es| == cfg.leaf && |es| >= 2 && Used(h.pages[a].entries) + 1 == cfg.leaf
    requires var w := WithEntry(h.pages[a], i, it.key, x); Gathered(h.items[x := it], w, |w.entries|, es)
    requires f == LeafCutMemory(cfg, h, a, i, x, it, es, d) && LeavesStay(f, g)
    ensures LeafHalved(h, g, a, x, it, d)
  {
    var w, items := WithEntry(h.pages[a], i, it.key, x), h.items[x := it];
    var l, r := LeftLeaf(w, es, |es| / 2, d, cfg.leaf), RightLeaf(w, es, |es| / 2, cfg.leaf);
    assert f.pages[a] == l && f.pages[d] == r;
    FilledHolds(items, w, es, 0, |es| / 2, l);
    FilledHolds(items, w, es, |es| / 2, |es|, r);
    hide Gathered, Used, Filled;
    assert forall b :: b in h.pages && b != a && h.pages[b].Leaf? ==> f.pages[b] == h.pages[b];
  }

  lemma FewKeysAllDone(cfg: Config, h: Memory, m: Model, ops: seq<(Key, Value)>, done: nat)
    requires done <= |ops| && Inv(cfg, h, Upserts(m, ops[..done]), NoSplit) && h.root in h.pages
    requires done < |ops| ==> RootLevel(h) >= MAX_LEVEL
    ensures |m| + |ops| <= Bound(cfg, MAX_LEVEL) ==> done == |ops|
  {
    UpsertsSize(m, ops[..done]);
    hide Inv, Upserts;
    if |m| + |ops| <= Bound(cfg, MAX_LEVEL) && done < |ops| {
      FewKeysLowTree(cfg, h, Upserts(m, ops[..done]), MAX_LEVEL);
    }
  }

  lemma HasRoot(cfg: Config, h: Memory, m: Model)
    requires Inv(cfg, h, m, NoSplit)
    ensures h.root in h.pages
  {
  }

  lemma LeafFacts(cfg: Config, h: Memory, m: Model, a: Addr, k: Key)
    requires Inv(cfg, h, m, NoSplit) && At(h, a, 0, k)
    ensures h.pages[a].Leaf? && Exact(h.items, m, h.pages[a]) && |h.pages[a].entries| == cfg.leaf && cfg.Ok()
    ensures Used(h.pages[a].entries) < cfg.leaf
  {
    assert Shape(cfg, h.pages[a]) && Sized(cfg, h.pages[a], a == h.root);
  }

  /** The page above a split leaf is on the path and covers the separator. */
  lemma LeafParent(cfg: Config, h: Memory, m: Model, path: seq<Addr>, a: Addr, k: Key, sep: Key)
    requires Inv(cfg, h, m, NoSplit) && At(h, a, 0, k) && a != h.root && Trail(h, path, k, 1)
    requires h.pages[a].lo < sep < h.pages[a].hi
    ensures 1 <= RootLevel(h) && At(h, path[1], 1, sep)
  {
    RootAlone(cfg, h, a);
    hide Inv;
    assert At(h, path[1], 1, k);
    CoversAbove(cfg, h, m, NoSplit, a, path[1], k, sep);
  }

  /** The page on the path, ready to take the separator. */
  lemma TakerReady(cfg: Config, h: Memory, m: Model, p: Pending, path: seq<Addr>, a: Addr, k: Key)
    requires Inv(cfg, h, m, p) && p.Split? && Trail(h, path, k, p.level) && 1 <= p.level <= RootLevel(h)
    requires path[p.level] == a && At(h, a, p.level, p.sep)
    ensures Taker(cfg, h, m, p, a) && At(h, a, p.level, k) && cfg.Ok() && h.pages[a].Covers(p.sep)
    ensures p.level == RootLevel(h) <==> a == h.root
  {
    hide Inv;
    assert At(h, path[p.level], p.level, k);
    assert Taker(cfg, h, m, p, a);
    TakerFacts(cfg, h, m, p, a);
  }

  lemma InnerParent(cfg: Config, h: Memory, m: Model, p: Pending, path: seq<Addr>, a: Addr, k: Key, sep: Key)
    requires Inv(cfg, h, m, p) && p.Split? && At(h, a, p.level, k) && Trail(h, path, k, p.level)
      && p.level < RootLevel(h)
    requires h.pages[a].lo < sep < h.pages[a].hi
    ensures At(h, path[p.level + 1], p.level + 1, sep)
  {
    hide Inv;
    assert At(h, path[p.level + 1], p.level + 1, k);
    CoversAbove(cfg, h, m, p, a, path[p.level + 1], k, sep);
  }

  lemma LeafImage(cfg: Config, h: Memory, m: Model, a: Addr, i: nat, x: Addr, it: Item)
    requires NewEntry(cfg, h, m, a, i, x, it)
    ensures cfg.Ok() && a in h.pages && h.pages[a].Leaf? && i < |h.pages[a].entries| == cfg.leaf
    ensures LeafFor(h, a, it.key) && cfg.leaf >= 2
    ensures var w := WithEntry(h.pages[a], i, it.key, x);
      Exact(h.items[x := it], m[it.key := it.value], w) && Used(w.entries) == Used(h.pages[a].entries) + 1
  {
    LeafFacts(cfg, h, m, a, it.key);
    NewEntryExact(cfg, h, m, a, i, x, it);
  }

  /** The state a leaf split leaves for the level above. */
  lemma LeafCut(cfg: Config, h: Memory, m: Model, path: seq<Addr>, a: Addr, i: nat, x: Addr, it: Item,
                es: seq<Keyed>, d: Addr)
    requires NewEntry(cfg, h, m, a, i, x, it) && d !in h.pages && d != NULL && Trail(h, path, it.key, 1) && cfg.Ok()
    requires var w := WithEntry(h.pages[a], i, it.key, x);
      Gathered(h.items[x := it], w, |w.entries|, es) && Sorted(es) && |es| == cfg.leaf
    ensures a in h.pages && h.pages[a].Leaf? && i < |h.pages[a].entries|
    ensures var g, p := LeafCutMemory(cfg, h, a, i, x, it, es, d), Split(es[|es| / 2].key, d, 1);
      && g.root == h.root
      && Inv(cfg, g, m[it.key := it.value], p) && (AtTop(g, p) <==> a == h.root)
      && Trail(g, path, it.key, 1) && g.root in g.pages && |path| == MAX_LEVEL
      && (a != h.root ==> 1 <= RootLevel(g) && At(g, path[1], 1, p.sep))
  {
    LeafSplitInv(cfg, h, m, a, i, x, it, es, d);
    assert Inv(cfg, h, m, NoSplit) && At(h, a, 0, it.key) && a in h.pages && h.pages[a].Leaf?;
    hide NewEntry, Inv, Gathered, Sorted, AtTop, Filled;
    var w := WithEntry(h.pages[a], i, it.key, x);
    var l, r := LeftLeaf(w, es, |es| / 2, d, cfg.leaf), RightLeaf(w, es, |es| / 2, cfg.leaf);
    TrailKept(h, LeafCutMemory(cfg, h, a, i, x, it, es, d), path, a, l, d, r, it.key, 1);
    if a != h.root {
      LeafParent(cfg, h, m, path, a, it.key, es[|es| / 2].key);
    }
  }

  lemma InnerCut(cfg: Config, h: Memory, m: Model, p: Pending, path: seq<Addr>, a: Addr, k: Key, d: Addr)
    requires Taker(cfg, h, m, p, a) && |h.pages[a].records| + 1 == cfg.inner && d !in h.pages && d != NULL
    requires Trail(h, path, k, p.level) && At(h, a, p.level, k)
    ensures var w := WithRecord(h.pages[a], p.sep, p.right); var mid := cfg.inner / 2;
      && |w.records| == cfg.inner && mid + 1 < |w.records| && w.lo < w.records[mid].key < w.hi
      && var l, r, q := LeftHalf(w, mid, d), RightHalf(w, mid), Split(w.records[mid].key, d, p.level + 1);
      && var g := CutMemory(h, a, l, d, r);
      && Inv(cfg, g, m, q) && (AtTop(g, q) <==> a == h.root)
      && h.root in h.pages && g.root in g.pages && RootLevel(g) == RootLevel(h) >= p.level
      && Trail(g, path, k, p.level + 1)
      && (a != h.root ==>
          p.level + 1 <= RootLevel(g) && p.level + 1 < |path| && At(g, path[p.level + 1], p.level + 1, q.sep))
  {
    TakerFacts(cfg, h, m, p, a);
    InnerSplitInv(cfg, h, m, p, a, d);
    TakerLevel(cfg, h, m, p, a);
    hide Inv, Taker, AtTop, Sizes, Sized, Ascending, Route;
    var w := WithRecord(h.pages[a], p.sep, p.right);
    var l, r := LeftHalf(w, cfg.inner / 2, d), RightHalf(w, cfg.inner / 2);
    TrailKept(h, CutMemory(h, a, l, d, r), path, a, l, d, r, k, p.level + 1);
    if a != h.root {
      InnerParent(cfg, h, m, p, path, a, k, w.records[cfg.inner / 2].key);
    }
  }

  /** A cut below does not touch the path above. */
  lemma TrailKept(h: Memory, g: Memory, path: seq<Addr>, a: Addr, l: Page, d: Addr, r: Page, k: Key, from: nat)
    requires a in h.pages && d !in h.pages && g.pages == h.pages[d := r][a := l] && g.root == h.root
    requires l.Level() == h.pages[a].Level() < from && (Trail(h, path, k, from) || Trail(h, path, k, from - 1))
    ensures Trail(g, path, k, from) && RootLevel(g) == RootLevel(h)
    ensures forall b, s, j: nat :: At(h, b, j, s) && j >= from ==> At(g, b, j, s)
  {
  }
}
