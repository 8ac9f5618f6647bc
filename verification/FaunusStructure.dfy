/** What every structural step of a split keeps: links, disjoint fences and the root. */
module FaunusStructure {
  import opened Bits
  import opened FaunusNodes
  import opened FaunusRouting

  /** All links are exact, except perhaps those of the node at `a`. */
  ghost predicate LinksExcept(cfg: Config, h: Memory, a: Addr)
    requires Shapes(cfg, h)
  {
    forall b, i :: b in h.nodes && b != a && h.nodes[b].Inner? && 0 <= i <= h.nodes[b].last
                   ==> LinkOk(h, NoSplit, h.nodes[b], i)
  }

  ghost predicate OwnLinks(h: Memory, n: Node)
    requires n.Inner? ==> n.last < |n.keys| && n.last < |n.kids|
  {
    n.Inner? ==> forall i :: 0 <= i <= n.last ==> LinkOk(h, NoSplit, n, i)
  }

  ghost predicate Top(cfg: Config, h: Memory) {
    TopOk(cfg, h, NoSplit)
  }

  function Relock(n: Node, lock: nat): Node {
    n.(lock := lock)
  }

  function Put(h: Memory, a: Addr, n: Node): Memory {
    h.(nodes := h.nodes[a := n])
  }

  /** In a tree with a pending separator, the node that must take it: the child it routes the
      separator to ends there, and the separator is new to the node. */
  lemma PendingParent(cfg: Config, h: Memory, p: Pending, a: Addr)
    requires Structure(cfg, h, p) && p.Split? && a in h.nodes
    requires h.nodes[a].Inner? && h.nodes[a].height == p.level && h.nodes[a].Covers(p.sep)
    ensures var n := h.nodes[a]; var x := Route(n, p.sep);
      && LinkOk(h, p, n, x)
      && h.nodes[n.kids[x]].hi == p.sep
      && Upper(n, x) == h.nodes[p.right].hi
      && Lower(n, x) < p.sep < Upper(n, x)
      && p.sep !in n.keys[..n.last + 1]
  {
    var n := h.nodes[a];
    var x := Route(n, p.sep);
    RouteBounds(cfg.Bf(), cfg.maxKey, n, p.sep);
    assert LinkOk(h, p, n, x);
    var c := h.nodes[n.kids[x]];
    assert Shape(cfg, c) && Shape(cfg, h.nodes[p.right]);
    assert Apart(c, h.nodes[p.right]);
    assert p.sep != 0 && p.sep < n.hi;
    forall i | 0 <= i < n.last
      ensures n.keys[i] != p.sep
    {
      if x <= i { assert x < i ==> n.keys[x] < n.keys[i]; }
      if i < x { assert i < x - 1 ==> n.keys[i] < n.keys[x - 1]; }
    }
  }

  /** Every link other than that one is exact. */
  lemma PendingElsewhere(cfg: Config, h: Memory, p: Pending, a: Addr, b: Addr, i: nat)
    requires Structure(cfg, h, p) && p.Split? && a in h.nodes && b in h.nodes
    requires h.nodes[a].Inner? && h.nodes[a].height == p.level && h.nodes[a].Covers(p.sep)
    requires h.nodes[b].Inner? && i <= h.nodes[b].last
    requires b != a || i != Route(h.nodes[a], p.sep)
    ensures LinkOk(h, NoSplit, h.nodes[b], i)
  {
    var n := h.nodes[b];
    assert LinkOk(h, p, n, i);
    var c := h.nodes[n.kids[i]];
    assert Shape(cfg, c) && Shape(cfg, h.nodes[p.right]) && Shape(cfg, n) && Shape(cfg, h.nodes[a]);
    assert n.height == p.level ==> b == a || Apart(n, h.nodes[a]);
    if c.hi != Upper(n, i) {
      assert Lower(n, i) < p.sep < Upper(n, i);
      RouteUnique(cfg.Bf(), cfg.maxKey, n, p.sep, i);
      assert false;
    }
  }

  /** The node with the pending separator entered has only exact links. */
  lemma AdoptLinks(cfg: Config, h: Memory, p: Pending, a: Addr, size: nat, n: Node)
    requires Structure(cfg, h, p) && p.Split? && a in h.nodes
    requires h.nodes[a].Inner? && h.nodes[a].height == p.level && h.nodes[a].Covers(p.sep)
    requires || (size == cfg.Bf() && n == h.nodes[a])
             || (size == cfg.Bf() + 1 && n == Roomier(h.nodes[a]))
    requires n.last + 1 < size
    ensures Enterable(size, cfg.maxKey, n, p.sep)
    ensures OwnLinks(h, WithEntry(n, p.sep, p.right))
  {
    AdoptShape(cfg, h, p, a, size, n);
    hide Structure, Route, LinkOk, Enterable, Roomier;
    var w := WithEntry(n, p.sep, p.right);
    forall i | 0 <= i <= w.last
      ensures LinkOk(h, NoSplit, w, i)
    {
      WithEntryParts(size, cfg.maxKey, n, p.sep, p.right, i);
      AdoptLink(cfg, h, p, a, n, i);
    }
  }

  /** The node, or the node with one more slot, can take the separator and routes it alike. */
  lemma AdoptShape(cfg: Config, h: Memory, p: Pending, a: Addr, size: nat, n: Node)
    requires Structure(cfg, h, p) && p.Split? && a in h.nodes
    requires h.nodes[a].Inner? && h.nodes[a].height == p.level && h.nodes[a].Covers(p.sep)
    requires || (size == cfg.Bf() && n == h.nodes[a])
             || (size == cfg.Bf() + 1 && n == Roomier(h.nodes[a]))
    requires n.last + 1 < size
    ensures Enterable(size, cfg.maxKey, n, p.sep) && Route(n, p.sep) == Route(h.nodes[a], p.sep)
    ensures |n.keys| == |n.kids| == size && n.keys[..cfg.Bf()] == h.nodes[a].keys
      && n.kids[..cfg.Bf()] == h.nodes[a].kids
    ensures |h.nodes[a].keys| == cfg.Bf()
  {
    PendingParent(cfg, h, p, a);
    assert Shape(cfg, h.nodes[a]);
    hide Structure;
    EntryFits(cfg, h.nodes[a], size, n, p.sep);
  }

  lemma EntryFits(cfg: Config, o: Node, size: nat, n: Node, key: Key)
    requires InnerShape(cfg, o) && o.lo < key < o.hi && key !in o.keys[..o.last + 1]
    requires (size == cfg.Bf() && n == o) || (size == cfg.Bf() + 1 && n == Roomier(o))
    requires n.last + 1 < size
    ensures Enterable(size, cfg.maxKey, n, key) && Route(n, key) == Route(o, key)
    ensures |n.keys| == |n.kids| == size && n.keys[..cfg.Bf()] == o.keys && n.kids[..cfg.Bf()] == o.kids
  {
    RoomierShape(cfg.Bf(), cfg.maxKey, o, key);
    assert n.keys[..n.last] == o.keys[..o.last];
    assert o.keys[..o.last] == o.keys[..o.last + 1][..o.last];
    SameRoute(n.keys, o.keys, o.last, key, 0);
  }

  lemma AdoptLink(cfg: Config, h: Memory, p: Pending, a: Addr, n: Node, i: nat)
    requires Structure(cfg, h, p) && p.Split? && a in h.nodes
    requires h.nodes[a].Inner? && h.nodes[a].height == p.level && h.nodes[a].Covers(p.sep)
    requires n.Inner? && n.last == h.nodes[a].last && n.height == p.level && n.lo == h.nodes[a].lo
      && n.hi == h.nodes[a].hi
    requires n.last + 1 < |n.keys| == |n.kids| && |n.keys| >= cfg.Bf()
    requires n.keys[..cfg.Bf()] == h.nodes[a].keys && n.kids[..cfg.Bf()] == h.nodes[a].kids
    requires i <= n.last + 1 && Route(n, p.sep) == Route(h.nodes[a], p.sep)
    requires var w := WithEntry(n, p.sep, p.right); var x := Route(n, p.sep);
      && (i < x ==> w.kids[i] == n.kids[i] && Lower(w, i) == Lower(n, i) && Upper(w, i) == Upper(n, i))
      && (i == x ==> w.kids[i] == n.kids[i] && Lower(w, i) == Lower(n, i) && Upper(w, i) == p.sep)
      && (i == x + 1 ==> w.kids[i] == p.right && Lower(w, i) == p.sep && Upper(w, i) == Upper(n, x))
      && (i > x + 1 ==> w.kids[i] == n.kids[i - 1] && Lower(w, i) == Lower(n, i - 1) && Upper(w, i) == Upper(n, i - 1))
    ensures LinkOk(h, NoSplit, WithEntry(n, p.sep, p.right), i)
  {
    var o := h.nodes[a];
    var x := Route(o, p.sep);
    var w := WithEntry(n, p.sep, p.right);
    PendingParent(cfg, h, p, a);
    assert PendingOk(h, p) && Shape(cfg, o);
    hide Structure, Route, LinkOk, WithEntry, PendingOk;
    if i < x {
      PendingElsewhere(cfg, h, p, a, a, i);
      SameParts(o, n, cfg.Bf(), i);
      SameLink(h, o, i, w, i);
    } else if i > x + 1 {
      PendingElsewhere(cfg, h, p, a, a, i - 1);
      SameParts(o, n, cfg.Bf(), i - 1);
      SameLink(h, o, i - 1, w, i);
    } else {
      SameParts(o, n, cfg.Bf(), x);
      HalfLink(h, p, o, x, w, i);
    }
  }

  lemma SameParts(o: Node, n: Node, size: nat, j: nat)
    requires o.Inner? && n.Inner? && n.last == o.last && j <= o.last < size && n.lo == o.lo && n.hi == o.hi
    requires |o.keys| == |o.kids| == size <= |n.keys| == |n.kids| && n.keys[..size] == o.keys
      && n.kids[..size] == o.kids
    ensures n.kids[j] == o.kids[j] && Lower(n, j) == Lower(o, j) && Upper(n, j) == Upper(o, j)
  {
    assert n.kids[j] == n.kids[..size][j] && n.keys[j] == n.keys[..size][j];
    assert j > 0 ==> n.keys[j - 1] == n.keys[..size][j - 1];
  }

  lemma SameLink(h: Memory, n: Node, i: nat, w: Node, j: nat)
    requires n.Inner? && i <= n.last && n.last < |n.keys| && n.last < |n.kids|
    requires w.Inner? && j <= w.last && w.last < |w.keys| && w.last < |w.kids| && w.height == n.height
    requires w.kids[j] == n.kids[i] && Lower(w, j) == Lower(n, i) && Upper(w, j) == Upper(n, i)
      && LinkOk(h, NoSplit, n, i)
    ensures LinkOk(h, NoSplit, w, j)
  {
  }

  /** The links left and right of a separator that enters. */
  lemma HalfLink(h: Memory, p: Pending, n: Node, x: nat, w: Node, i: nat)
    requires n.Inner? && x <= n.last && n.last < |n.keys| && n.last < |n.kids|
    requires p.Split? && n.height == p.level && PendingOk(h, p) && LinkOk(h, p, n, x)
    requires h.nodes[n.kids[x]].hi == p.sep && Upper(n, x) == h.nodes[p.right].hi && x <= i <= x + 1
    requires w.Inner? && i <= w.last && w.last < |w.keys| && w.last < |w.kids| && w.height == n.height
    requires i == x ==> w.kids[i] == n.kids[x] && Lower(w, i) == Lower(n, x) && Upper(w, i) == p.sep
    requires i == x + 1 ==> w.kids[i] == p.right && Lower(w, i) == p.sep && Upper(w, i) == Upper(n, x)
    ensures LinkOk(h, NoSplit, w, i)
  {
  }

  // ---- Replacing nodes --------------------------------------------------------------------

  /** Writing back a node with the same fence and exact links. */
  lemma Refit(cfg: Config, h: Memory, a: Addr, w: Node)
    requires cfg.Ok() && Shapes(cfg, h) && Disjoint(h) && Top(cfg, h) && a in h.nodes
    requires LinksExcept(cfg, h, a)
    requires Shape(cfg, w) && OwnLinks(h, w)
    requires w.lo == h.nodes[a].lo && w.hi == h.nodes[a].hi && w.Level() == h.nodes[a].Level()
    ensures Structure(cfg, Put(h, a, w), NoSplit)
  {
    var g := Put(h, a, w);
    forall b, i | b in g.nodes && g.nodes[b].Inner? && 0 <= i <= g.nodes[b].last
      ensures LinkOk(g, NoSplit, g.nodes[b], i)
    {
      assert LinkOk(h, NoSplit, g.nodes[b], i);
    }
  }

  /** Cutting the node at `a` into `l`, written back, and `r`, written to the new address `d`. */
  ghost predicate CutOk(cfg: Config, h: Memory, a: Addr, l: Node, d: Addr, r: Node) {
    && a in h.nodes && d !in h.nodes
    && Shape(cfg, l) && Shape(cfg, r) && OwnLinks(h, l) && OwnLinks(h, r)
    && l.Level() == r.Level() == h.nodes[a].Level()
    && l.lo == h.nodes[a].lo && l.hi == r.lo && r.hi == h.nodes[a].hi
  }

  lemma CutDisjoint(cfg: Config, h: Memory, a: Addr, l: Node, d: Addr, r: Node)
    requires Shapes(cfg, h) && Disjoint(h) && CutOk(cfg, h, a, l, d, r)
    ensures Disjoint(Put(Put(h, d, r), a, l))
  {
    var g := Put(Put(h, d, r), a, l);
    forall x, y | x in g.nodes && y in g.nodes && x != y && g.nodes[x].Level() == g.nodes[y].Level()
      ensures Apart(g.nodes[x], g.nodes[y])
    {
      var x0 := if x == d then a else x;
      var y0 := if y == d then a else y;
      assert x0 in h.nodes && y0 in h.nodes;
      if x0 != y0 {
        assert Apart(h.nodes[x0], h.nodes[y0]);
      }
    }
  }

  /** After a cut the separator is pending one level above. */
  lemma Cut(cfg: Config, h: Memory, a: Addr, l: Node, d: Addr, r: Node)
    requires cfg.Ok() && Shapes(cfg, h) && Disjoint(h) && Top(cfg, h)
    requires CutOk(cfg, h, a, l, d, r) && LinksExcept(cfg, h, a)
    ensures Structure(cfg, Put(Put(h, d, r), a, l), Split(r.lo, d, r.Level() + 1))
  {
    var g := Put(Put(h, d, r), a, l);
    var p := Split(r.lo, d, r.Level() + 1);
    CutDisjoint(cfg, h, a, l, d, r);
    assert Shapes(cfg, g);
    forall b, i | b in g.nodes && g.nodes[b].Inner? && 0 <= i <= g.nodes[b].last
      ensures LinkOk(g, p, g.nodes[b], i)
    {
      assert LinkOk(h, NoSplit, g.nodes[b], i);
    }
    CutTop(cfg, h, a, l, d, r);
  }

  lemma CutTop(cfg: Config, h: Memory, a: Addr, l: Node, d: Addr, r: Node)
    requires cfg.Ok() && Shapes(cfg, h) && Disjoint(h) && Top(cfg, h)
    requires CutOk(cfg, h, a, l, d, r)
    ensures TopOk(cfg, Put(Put(h, d, r), a, l), Split(r.lo, d, r.Level() + 1))
    ensures PendingOk(Put(Put(h, d, r), a, l), Split(r.lo, d, r.Level() + 1))
  {
    assert Shape(cfg, h.nodes[a]);
    assert a != h.root && r.Level() == h.nodes[h.root].Level() ==> Apart(h.nodes[a], h.nodes[h.root]);
  }

  // ---- The three ways a pending separator moves on ------------------------------------------

  /** It enters a node with room. */
  lemma EnterSettles(cfg: Config, h: Memory, p: Pending, a: Addr)
    requires Structure(cfg, h, p) && p.Split? && a in h.nodes
    requires h.nodes[a].Inner? && h.nodes[a].height == p.level && h.nodes[a].Covers(p.sep)
    requires h.nodes[a].last + 1 < cfg.Bf()
    ensures Structure(cfg, Put(h, a, WithEntry(h.nodes[a], p.sep, p.right)), NoSplit)
  {
    var n := h.nodes[a];
    assert Shape(cfg, n);
    AdoptLinks(cfg, h, p, a, cfg.Bf(), n);
    WithEntryShape(cfg.Bf(), cfg.maxKey, n, p.sep, p.right);
    ElsewhereExact(cfg, h, p, a);
    Refit(cfg, h, a, WithEntry(n, p.sep, p.right));
  }

  lemma ElsewhereExact(cfg: Config, h: Memory, p: Pending, a: Addr)
    requires Structure(cfg, h, p) && p.Split? && a in h.nodes
    requires h.nodes[a].Inner? && h.nodes[a].height == p.level && h.nodes[a].Covers(p.sep)
    ensures LinksExcept(cfg, h, a) && Top(cfg, h)
  {
    forall b, i | b in h.nodes && b != a && h.nodes[b].Inner? && 0 <= i <= h.nodes[b].last
      ensures LinkOk(h, NoSplit, h.nodes[b], i)
    {
      PendingElsewhere(cfg, h, p, a, b, i);
    }
  }

  /** It enters a full node, which is cut in the middle; the middle separator is pending next. */
  lemma SplitMovesUp(cfg: Config, h: Memory, p: Pending, a: Addr, d: Addr)
    requires Structure(cfg, h, p) && p.Split? && a in h.nodes && d !in h.nodes
    requires h.nodes[a].Inner? && h.nodes[a].height == p.level && h.nodes[a].Covers(p.sep)
    requires h.nodes[a].last + 1 == cfg.Bf()
    ensures Enterable(cfg.Bf() + 1, cfg.maxKey, Roomier(h.nodes[a]), p.sep)
    ensures var w := WithEntry(Roomier(h.nodes[a]), p.sep, p.right); var mid := cfg.Bf() / 2;
      && Splittable(cfg.Bf() + 1, cfg.maxKey, w, mid)
      && CutOk(cfg, h, a, LeftHalf(w, mid), d, RightHalf(w, mid))
      && Structure(cfg, Put(Put(h, d, RightHalf(w, mid)), a, LeftHalf(w, mid)), Split(w.keys[mid], d, p.level + 1))
  {
    hide Structure, Links, LinksExcept, OwnLinks, Shape, Shapes, Disjoint, Top;
    StructureParts(cfg, h, p);
    BfFacts(cfg);
    OverfullParts(cfg, h, p, a);
    assert |Roomier(h.nodes[a]).keys| == |Roomier(h.nodes[a]).kids| == cfg.Bf() + 1;
    hide WithEntry, RoomyShape, Enterable;
    var w := WithEntry(Roomier(h.nodes[a]), p.sep, p.right);
    Cut(cfg, h, a, LeftHalf(w, cfg.Bf() / 2), d, RightHalf(w, cfg.Bf() / 2));
  }

  lemma StructureParts(cfg: Config, h: Memory, p: Pending)
    requires Structure(cfg, h, p)
    ensures cfg.Ok() && Shapes(cfg, h) && Disjoint(h)
  {
  }

  /** The overfull node image and its halves. */
  lemma OverfullParts(cfg: Config, h: Memory, p: Pending, a: Addr)
    requires Structure(cfg, h, p) && p.Split? && a in h.nodes && cfg.Bf() >= 4 && cfg.Bf() % 2 == 0
    requires h.nodes[a].Inner? && h.nodes[a].height == p.level && h.nodes[a].Covers(p.sep)
    requires h.nodes[a].last + 1 == cfg.Bf()
    ensures Enterable(cfg.Bf() + 1, cfg.maxKey, Roomier(h.nodes[a]), p.sep)
    ensures var w := WithEntry(Roomier(h.nodes[a]), p.sep, p.right); var mid := cfg.Bf() / 2;
      && Splittable(cfg.Bf() + 1, cfg.maxKey, w, mid)
      && w.lo == h.nodes[a].lo && w.hi == h.nodes[a].hi && w.height == p.level
      && Shape(cfg, LeftHalf(w, mid)) && Shape(cfg, RightHalf(w, mid))
      && OwnLinks(h, LeftHalf(w, mid)) && OwnLinks(h, RightHalf(w, mid))
    ensures Shapes(cfg, h) && LinksExcept(cfg, h, a) && Top(cfg, h)
  {
    var n := Roomier(h.nodes[a]);
    var size := cfg.Bf() + 1;
    assert n.last + 1 < size;
    var w := WithEntry(n, p.sep, p.right);
    var mid := cfg.Bf() / 2;
    ElsewhereExact(cfg, h, p, a);
    AdoptLinks(cfg, h, p, a, size, n);
    hide Structure, Shapes, LinksExcept, OwnLinks, RoomyShape, Top;
    WithEntryShape(size, cfg.maxKey, n, p.sep, p.right);
    HalvesShape(size, cfg.maxKey, w, mid);
    HalvesLinks(cfg, h, w, mid);
  }

  lemma HalvesLinks(cfg: Config, h: Memory, w: Node, mid: nat)
    requires Splittable(cfg.Bf() + 1, cfg.maxKey, w, mid) && OwnLinks(h, w)
    ensures OwnLinks(h, LeftHalf(w, mid)) && OwnLinks(h, RightHalf(w, mid))
  {
    var size := cfg.Bf() + 1;
    var l, r := LeftHalf(w, mid), RightHalf(w, mid);
    forall i | 0 <= i <= l.last
      ensures LinkOk(h, NoSplit, l, i)
    {
      LeftParts(size, cfg.maxKey, w, mid, i);
      assert LinkOk(h, NoSplit, w, i);
    }
    forall i | 0 <= i <= r.last
      ensures LinkOk(h, NoSplit, r, i)
    {
      RightParts(size, cfg.maxKey, w, mid, i);
      assert LinkOk(h, NoSplit, w, mid + 1 + i);
    }
  }

  /** The root over the old root and the node right of it. */
  function NewRoot(cfg: Config, root: Addr, p: Pending): (r: Node)
    requires p.Split? && cfg.Bf() >= 2
  {
    Inner(0, 0, cfg.maxKey, p.level, 1, [p.sep] + Zeros(cfg.Bf() - 1), [root, p.right] + Zeros(cfg.Bf() - 2))
  }

  /** The root was cut: a new root takes both halves. */
  lemma RootGrows(cfg: Config, h: Memory, p: Pending, d: Addr)
    requires Structure(cfg, h, p) && p.Split? && p.level == h.nodes[h.root].Level() + 1 && d !in h.nodes
    ensures cfg.Bf() >= 4
    ensures Shape(cfg, NewRoot(cfg, h.root, p)) && OwnLinks(h, NewRoot(cfg, h.root, p))
    ensures Structure(cfg, Put(h, d, NewRoot(cfg, h.root, p)).(root := d), NoSplit)
  {
    BfFacts(cfg);
    RootShape(cfg, h, p);
    RootLinks(cfg, h, p, d);
    hide Links, Shape, OwnLinks;
    var g := Put(h, d, NewRoot(cfg, h.root, p)).(root := d);
    assert Shapes(cfg, g) && Disjoint(g);
  }

  lemma RootShape(cfg: Config, h: Memory, p: Pending)
    requires Structure(cfg, h, p) && p.Split? && p.level == h.nodes[h.root].Level() + 1 && cfg.Bf() >= 4
    ensures Shape(cfg, NewRoot(cfg, h.root, p)) && OwnLinks(h, NewRoot(cfg, h.root, p))
  {
    assert Shape(cfg, h.nodes[p.right]) && Shape(cfg, h.nodes[h.root]);
    hide Links, Disjoint, Shapes;
  }

  lemma RootLinks(cfg: Config, h: Memory, p: Pending, d: Addr)
    requires Structure(cfg, h, p) && p.Split? && p.level == h.nodes[h.root].Level() + 1 && d !in h.nodes
      && cfg.Bf() >= 4
    requires Shape(cfg, NewRoot(cfg, h.root, p)) && OwnLinks(h, NewRoot(cfg, h.root, p))
    ensures var g := Put(h, d, NewRoot(cfg, h.root, p)).(root := d);
      Shapes(cfg, g) && Links(cfg, g, NoSplit)
  {
    var n := NewRoot(cfg, h.root, p);
    var g := Put(h, d, n).(root := d);
    hide Disjoint, Shape;
    assert Shapes(cfg, g);
    forall b, i | b in g.nodes && g.nodes[b].Inner? && 0 <= i <= g.nodes[b].last
      ensures LinkOk(g, NoSplit, g.nodes[b], i)
    {
      if b == d {
        assert LinkOk(h, NoSplit, n, i);
      } else {
        assert LinkOk(h, p, h.nodes[b], i);
      }
    }
  }
}
