/** The structure of the tree while any number of splits is under way, each with a separator that no
    node above knows yet: what entering a separator, cutting a node and growing the root keep. */
module ManySplits {
  import opened Bits
  import opened FaunusNodes
  import opened FaunusRouting
  import opened FaunusStructure

  type Thread = nat

  /** The separators still to be entered, by the thread that will do it. */
  type Pendings = map<Thread, Pending>

  /** The split of thread `t` has cut a child of a node of height `height` at `hi`; the rest of it, up to
      `upper`, is the new right node. */
  ghost predicate CutAt(h: Memory, ps: Pendings, t: Thread, height: nat, hi: Key, upper: Key) {
    && t in ps && ps[t].Split? && ps[t].level == height && ps[t].sep == hi
    && ps[t].right in h.nodes && h.nodes[ps[t].right].hi == upper
  }

  ghost predicate SomeCut(h: Memory, ps: Pendings, height: nat, hi: Key, upper: Key) {
    exists t :: CutAt(h, ps, t, height, hi, upper)
  }

  /** The node is not the new right node of a split: a search can reach it. */
  ghost predicate Reachable(ps: Pendings, a: Addr) {
    forall t :: t in ps && ps[t].Split? ==> ps[t].right != a
  }

  /** Child `i` lies one level below, starts where its part of the fence starts, and ends where that ends
      or where a split has cut it. */
  ghost predicate ChildOk(h: Memory, ps: Pendings, n: Node, i: nat)
    requires n.Inner? && i <= n.last && n.last < |n.keys| && n.last < |n.kids|
  {
    && WeakLinkOk(h, n, i)
    && Reachable(ps, n.kids[i])
    && var c := h.nodes[n.kids[i]];
    c.hi == Upper(n, i) || SomeCut(h, ps, n.height, c.hi, Upper(n, i))
  }

  ghost predicate Children(h: Memory, ps: Pendings, n: Node)
    requires n.Inner? ==> n.last < |n.keys| && n.last < |n.kids|
  {
    n.Inner? ==> forall i :: 0 <= i <= n.last ==> ChildOk(h, ps, n, i)
  }

  ghost predicate ChildrenExcept(cfg: Config, h: Memory, ps: Pendings, a: Addr)
    requires Shapes(cfg, h)
  {
    forall b :: b in h.nodes && b != a ==> Children(h, ps, h.nodes[b])
  }

  ghost predicate AllChildren(cfg: Config, h: Memory, ps: Pendings)
    requires Shapes(cfg, h)
  {
    forall b :: b in h.nodes ==> Children(h, ps, h.nodes[b])
  }

  /** No node is above the root, which covers all keys but for what a split has cut off. */
  ghost predicate RootOk(cfg: Config, h: Memory, ps: Pendings) {
    && h.root in h.nodes && h.nodes[h.root].lo == 0 && Reachable(ps, h.root)
    && (forall a :: a in h.nodes ==> h.nodes[a].Level() <= h.nodes[h.root].Level())
    && (h.nodes[h.root].hi == cfg.maxKey
        || SomeCut(h, ps, h.nodes[h.root].Level() + 1, h.nodes[h.root].hi, cfg.maxKey))
  }

  ghost predicate SepOk(h: Memory, p: Pending) {
    && p.Split? && p.right in h.nodes && h.root in h.nodes
    && h.nodes[p.right].Level() + 1 == p.level && h.nodes[p.right].lo == p.sep
    && p.level <= h.nodes[h.root].Level() + 1
  }

  ghost predicate SepsOk(h: Memory, ps: Pendings) {
    && (forall t :: t in ps ==> SepOk(h, ps[t]))
    && (forall t, u :: t in ps && u in ps && ps[t].Split? && ps[u].Split? && ps[t].right == ps[u].right ==> t == u)
  }

  ghost predicate Forest(cfg: Config, h: Memory, ps: Pendings) {
    && cfg.Ok() && Shapes(cfg, h) && Disjoint(h)
    && AllChildren(cfg, h, ps) && RootOk(cfg, h, ps) && SepsOk(h, ps)
  }

  /** With nothing pending this is the structure of the settled tree. */
  lemma SettledForest(cfg: Config, h: Memory)
    ensures Forest(cfg, h, map[]) <==> Structure(cfg, h, NoSplit)
  {
    if Structure(cfg, h, NoSplit) {
      forall b | b in h.nodes
        ensures Children(h, map[], h.nodes[b])
      {
        if h.nodes[b].Inner? {
          forall i | 0 <= i <= h.nodes[b].last
            ensures ChildOk(h, map[], h.nodes[b], i)
          {
            assert LinkOk(h, NoSplit, h.nodes[b], i);
          }
        }
      }
    }
    if Forest(cfg, h, map[]) {
      forall b, i | b in h.nodes && h.nodes[b].Inner? && 0 <= i <= h.nodes[b].last
        ensures LinkOk(h, NoSplit, h.nodes[b], i)
      {
        assert Children(h, map[], h.nodes[b]);
        assert ChildOk(h, map[], h.nodes[b], i);
      }
    }
  }

  // ---- The node that takes a separator ------------------------------------------------------

  /** The node at `a` is one level above the split of `t` and covers its separator. */
  ghost predicate Takes(h: Memory, p: Pending, a: Addr) {
    && p.Split? && a in h.nodes && h.nodes[a].Inner?
    && h.nodes[a].height == p.level && h.nodes[a].Covers(p.sep)
  }

  /** However many splits are under way, that node routes the separator to the child that the split of
      `t` has cut, and does not have the separator in any slot that the duplicate test looks at. */
  lemma TakerRoutes(cfg: Config, h: Memory, ps: Pendings, t: Thread, a: Addr)
    requires Forest(cfg, h, ps) && t in ps && Takes(h, ps[t], a)
    ensures Shape(cfg, h.nodes[a]) && SepOk(h, ps[t])
    ensures var n := h.nodes[a]; var p := ps[t]; var x := Route(n, p.sep);
      && ChildOk(h, ps, n, x)
      && h.nodes[n.kids[x]].hi == p.sep && Upper(n, x) == h.nodes[p.right].hi
      && Lower(n, x) < p.sep < Upper(n, x)
      && p.sep !in n.keys[..n.last + 1]
  {
    var n, p := h.nodes[a], ps[t];
    var x := Route(n, p.sep);
    assert Shape(cfg, n) && SepOk(h, p) && Children(h, ps, n);
    RouteBounds(cfg.Bf(), cfg.maxKey, n, p.sep);
    assert ChildOk(h, ps, n, x);
    var c := h.nodes[n.kids[x]];
    assert Shape(cfg, c) && Shape(cfg, h.nodes[p.right]);
    assert Apart(c, h.nodes[p.right]);
    var u :| CutAt(h, ps, u, n.height, c.hi, Upper(n, x));
    assert SepOk(h, ps[u]) && Shape(cfg, h.nodes[ps[u].right]);
    NotASeparator(cfg, n, p.sep);
  }

  lemma NotASeparator(cfg: Config, n: Node, key: Key)
    requires InnerShape(cfg, n) && n.Covers(key) && Lower(n, Route(n, key)) < key
    ensures key !in n.keys[..n.last + 1]
  {
    var x := Route(n, key);
    forall i | 0 <= i < n.last
      ensures n.keys[i] != key
    {
      if i < x { assert i < x - 1 ==> n.keys[i] < n.keys[x - 1]; }
      if x < i { assert n.keys[x] < n.keys[i]; }
    }
  }

  /** No other child is cut by that split. */
  lemma ElsewhereOk(cfg: Config, h: Memory, ps: Pendings, t: Thread, a: Addr, b: Addr, i: nat)
    requires Forest(cfg, h, ps) && t in ps && Takes(h, ps[t], a)
    requires b in h.nodes && h.nodes[b].Inner? && i <= h.nodes[b].last
    requires b != a || i != Route(h.nodes[a], ps[t].sep)
    ensures Shape(cfg, h.nodes[b]) && ChildOk(h, ps - {t}, h.nodes[b], i)
  {
    var n, p := h.nodes[b], ps[t];
    assert Shape(cfg, n) && Shape(cfg, h.nodes[a]) && SepOk(h, p) && Children(h, ps, n);
    assert ChildOk(h, ps, n, i);
    var c := h.nodes[n.kids[i]];
    if c.hi != Upper(n, i) {
      assert Shape(cfg, c) && Shape(cfg, h.nodes[p.right]);
      var u :| CutAt(h, ps, u, n.height, c.hi, Upper(n, i));
      if u == t {
        if b == a {
          RouteUnique(cfg.Bf(), cfg.maxKey, n, p.sep, i);
        }
        assert false;
      }
      assert CutAt(h, ps - {t}, u, n.height, c.hi, Upper(n, i));
    }
  }

  lemma ElsewhereAll(cfg: Config, h: Memory, ps: Pendings, t: Thread, a: Addr)
    requires Forest(cfg, h, ps) && t in ps && Takes(h, ps[t], a)
    ensures Shapes(cfg, h) && ChildrenExcept(cfg, h, ps - {t}, a)
  {
    forall b | b in h.nodes && b != a
      ensures Children(h, ps - {t}, h.nodes[b])
    {
      if h.nodes[b].Inner? {
        forall i | 0 <= i <= h.nodes[b].last
          ensures ChildOk(h, ps - {t}, h.nodes[b], i)
        {
          ElsewhereOk(cfg, h, ps, t, a, b, i);
        }
      }
    }
  }

  /** With the separator entered, all children of the node, or of the node with one more slot, are known. */
  lemma Adopt(cfg: Config, h: Memory, ps: Pendings, t: Thread, a: Addr, size: nat, n: Node)
    requires Forest(cfg, h, ps) && t in ps && Takes(h, ps[t], a)
    requires || (size == cfg.Bf() && n == h.nodes[a])
             || (size == cfg.Bf() + 1 && n == Roomier(h.nodes[a]))
    requires n.last + 1 < size
    ensures Enterable(size, cfg.maxKey, n, ps[t].sep)
    ensures Children(h, ps - {t}, WithEntry(n, ps[t].sep, ps[t].right))
  {
    var p := ps[t];
    TakerRoutes(cfg, h, ps, t, a);
    hide Forest, Route, ChildOk, SepOk;
    EntryFits(cfg, h.nodes[a], size, n, p.sep);
    hide Shape, Roomier, Enterable;
    var w := WithEntry(n, p.sep, p.right);
    forall i | 0 <= i <= w.last
      ensures ChildOk(h, ps - {t}, w, i)
    {
      WithEntryParts(size, cfg.maxKey, n, p.sep, p.right, i);
      AdoptChild(cfg, h, ps, t, a, n, i);
    }
  }

  lemma AdoptChild(cfg: Config, h: Memory, ps: Pendings, t: Thread, a: Addr, n: Node, i: nat)
    requires Forest(cfg, h, ps) && t in ps && Takes(h, ps[t], a)
    requires var o := h.nodes[a]; n.Inner? && n.last == o.last && n.height == o.height && n.lo == o.lo && n.hi == o.hi
    requires n.last + 1 < |n.keys| == |n.kids| && |n.keys| >= cfg.Bf()
    requires n.keys[..cfg.Bf()] == h.nodes[a].keys && n.kids[..cfg.Bf()] == h.nodes[a].kids
    requires i <= n.last + 1 && h.nodes[a].last < |h.nodes[a].keys|
      && Route(n, ps[t].sep) == Route(h.nodes[a], ps[t].sep)
    requires var p := ps[t]; var w := WithEntry(n, p.sep, p.right); var x := Route(n, p.sep);
      && (i < x ==> w.kids[i] == n.kids[i] && Lower(w, i) == Lower(n, i) && Upper(w, i) == Upper(n, i))
      && (i == x ==> w.kids[i] == n.kids[i] && Lower(w, i) == Lower(n, i) && Upper(w, i) == p.sep)
      && (i == x + 1 ==> w.kids[i] == p.right && Lower(w, i) == p.sep && Upper(w, i) == Upper(n, x))
      && (i > x + 1 ==> w.kids[i] == n.kids[i - 1] && Lower(w, i) == Lower(n, i - 1) && Upper(w, i) == Upper(n, i - 1))
    ensures ChildOk(h, ps - {t}, WithEntry(n, ps[t].sep, ps[t].right), i)
  {
    var o, p := h.nodes[a], ps[t];
    var x, w := Route(o, p.sep), WithEntry(n, p.sep, p.right);
    TakerRoutes(cfg, h, ps, t, a);
    RightsDiffer(cfg, h, ps, t);
    hide Forest, Route, ChildOk, WithEntry, SepOk, Takes;
    if i < x {
      ElsewhereOk(cfg, h, ps, t, a, a, i);
      SameParts(o, n, cfg.Bf(), i);
      SameChild(h, ps - {t}, o, i, w, i);
    } else if i > x + 1 {
      ElsewhereOk(cfg, h, ps, t, a, a, i - 1);
      SameParts(o, n, cfg.Bf(), i - 1);
      SameChild(h, ps - {t}, o, i - 1, w, i);
    } else {
      SameParts(o, n, cfg.Bf(), x);
      TwoChildren(h, ps, t, o, x, w, i);
    }
  }

  lemma RightsDiffer(cfg: Config, h: Memory, ps: Pendings, t: Thread)
    requires Forest(cfg, h, ps) && t in ps
    ensures SepOk(h, ps[t]) && Reachable(ps - {t}, ps[t].right)
  {
  }

  lemma SameChild(h: Memory, ps: Pendings, n: Node, i: nat, w: Node, j: nat)
    requires n.Inner? && i <= n.last && n.last < |n.keys| && n.last < |n.kids|
    requires w.Inner? && j <= w.last && w.last < |w.keys| && w.last < |w.kids| && w.height == n.height
    requires w.kids[j] == n.kids[i] && Lower(w, j) == Lower(n, i) && Upper(w, j) == Upper(n, i)
    requires ChildOk(h, ps, n, i)
    ensures ChildOk(h, ps, w, j)
  {
  }

  /** The children left and right of a separator that enters. */
  lemma TwoChildren(h: Memory, ps: Pendings, t: Thread, n: Node, x: nat, w: Node, i: nat)
    requires n.Inner? && x <= n.last && n.last < |n.keys| && n.last < |n.kids|
    requires t in ps && SepOk(h, ps[t]) && n.height == ps[t].level && ChildOk(h, ps, n, x)
    requires Reachable(ps - {t}, ps[t].right)
    requires h.nodes[n.kids[x]].hi == ps[t].sep && Upper(n, x) == h.nodes[ps[t].right].hi && x <= i <= x + 1
    requires w.Inner? && i <= w.last && w.last < |w.keys| && w.last < |w.kids| && w.height == n.height
    requires i == x ==> w.kids[i] == n.kids[x] && Lower(w, i) == Lower(n, x) && Upper(w, i) == ps[t].sep
    requires i == x + 1 ==> w.kids[i] == ps[t].right && Lower(w, i) == ps[t].sep && Upper(w, i) == Upper(n, x)
    ensures ChildOk(h, ps - {t}, w, i)
  {
  }

  // ---- Writing nodes ------------------------------------------------------------------------

  /** A cut stays one while the new right node keeps its end. */
  lemma CutsStay(h: Memory, g: Memory, ps: Pendings, qs: Pendings, height: nat, hi: Key, upper: Key)
    requires SomeCut(h, ps, height, hi, upper)
    requires forall t :: t in ps ==> t in qs && qs[t] == ps[t]
    requires forall t :: t in ps && ps[t].Split? && ps[t].right in h.nodes ==>
      ps[t].right in g.nodes && g.nodes[ps[t].right].hi == h.nodes[ps[t].right].hi
    ensures SomeCut(g, qs, height, hi, upper)
  {
    var t :| CutAt(h, ps, t, height, hi, upper);
    assert CutAt(g, qs, t, height, hi, upper);
  }

  /** A separator that has entered a node is not what the root waits for. */
  lemma RootWithout(cfg: Config, h: Memory, ps: Pendings, t: Thread)
    requires RootOk(cfg, h, ps) && t in ps && ps[t].Split? && ps[t].level <= h.nodes[h.root].Level()
    ensures RootOk(cfg, h, ps - {t})
  {
    if h.nodes[h.root].hi != cfg.maxKey {
      var u :| CutAt(h, ps, u, h.nodes[h.root].Level() + 1, h.nodes[h.root].hi, cfg.maxKey);
      assert CutAt(h, ps - {t}, u, h.nodes[h.root].Level() + 1, h.nodes[h.root].hi, cfg.maxKey);
    }
  }

  /** Writing a node back with the same level and fence. */
  lemma Rewrite(cfg: Config, h: Memory, ps: Pendings, a: Addr, w: Node)
    requires cfg.Ok() && Shapes(cfg, h) && Disjoint(h) && RootOk(cfg, h, ps) && SepsOk(h, ps) && a in h.nodes
    requires ChildrenExcept(cfg, h, ps, a) && Shape(cfg, w) && Children(h, ps, w)
    requires w.lo == h.nodes[a].lo && w.hi == h.nodes[a].hi && w.Level() == h.nodes[a].Level()
    ensures Forest(cfg, Put(h, a, w), ps)
  {
    var g := Put(h, a, w);
    assert Shapes(cfg, g);
    assert Disjoint(g) by {
      forall x, y | x in g.nodes && y in g.nodes && x != y && g.nodes[x].Level() == g.nodes[y].Level()
        ensures Apart(g.nodes[x], g.nodes[y])
      {
        assert Apart(h.nodes[x], h.nodes[y]);
      }
    }
    hide Disjoint, Shape;
    assert AllChildren(cfg, g, ps) by {
      forall b | b in g.nodes
        ensures Children(g, ps, g.nodes[b])
      {
        RewriteChildren(h, ps, a, w, g.nodes[b]);
      }
    }
    hide AllChildren, ChildrenExcept, Children, Shapes;
    RewriteRoot(cfg, h, ps, a, w);
  }

  lemma RewriteRoot(cfg: Config, h: Memory, ps: Pendings, a: Addr, w: Node)
    requires RootOk(cfg, h, ps) && SepsOk(h, ps) && a in h.nodes
    requires w.lo == h.nodes[a].lo && w.hi == h.nodes[a].hi && w.Level() == h.nodes[a].Level()
    ensures RootOk(cfg, Put(h, a, w), ps) && SepsOk(Put(h, a, w), ps)
  {
    var g, n := Put(h, a, w), h.nodes[h.root];
    if n.hi != cfg.maxKey {
      CutsStay(h, g, ps, ps, n.Level() + 1, n.hi, cfg.maxKey);
    }
    forall t | t in ps
      ensures SepOk(g, ps[t])
    {
      assert SepOk(h, ps[t]);
    }
  }

  lemma RewriteChildren(h: Memory, ps: Pendings, a: Addr, w: Node, n: Node)
    requires a in h.nodes && w.lo == h.nodes[a].lo && w.hi == h.nodes[a].hi && w.Level() == h.nodes[a].Level()
    requires (n.Inner? ==> n.last < |n.keys| && n.last < |n.kids|) && Children(h, ps, n)
    ensures Children(Put(h, a, w), ps, n)
  {
    var g := Put(h, a, w);
    if n.Inner? {
      forall i | 0 <= i <= n.last
        ensures ChildOk(g, ps, n, i)
      {
        assert ChildOk(h, ps, n, i);
        var c := h.nodes[n.kids[i]];
        if c.hi != Upper(n, i) {
          CutsStay(h, g, ps, ps, n.height, c.hi, Upper(n, i));
        }
      }
    }
  }

  lemma RelockForest(cfg: Config, h: Memory, ps: Pendings, a: Addr, lock: nat)
    requires Forest(cfg, h, ps) && a in h.nodes
    ensures Forest(cfg, Put(h, a, Relock(h.nodes[a], lock)), ps)
  {
    var o, n := h.nodes[a], Relock(h.nodes[a], lock);
    assert Shape(cfg, o) && Shape(cfg, n) && Children(h, ps, o);
    assert Children(h, ps, n) by {
      if n.Inner? {
        forall i | 0 <= i <= n.last
          ensures ChildOk(h, ps, n, i)
        {
          SameChild(h, ps, o, i, n, i);
        }
      }
    }
    assert ChildrenExcept(cfg, h, ps, a);
    hide Disjoint, RootOk, SepsOk, ChildrenExcept, Children, Shape;
    Rewrite(cfg, h, ps, a, n);
  }

  /** Items are no matter of the structure. */
  lemma ItemsForest(cfg: Config, h: Memory, ps: Pendings, items: map<Addr, Item>)
    requires Forest(cfg, h, ps)
    ensures Forest(cfg, h.(items := items), ps)
  {
    var g := h.(items := items);
    assert Shapes(cfg, g) && Disjoint(g);
    forall b | b in g.nodes
      ensures Children(g, ps, g.nodes[b])
    {
      ItemsChildren(h, ps, items, h.nodes[b]);
    }
    hide Children, Shapes, Disjoint, RootOk, SepsOk;
    ItemsRoot(cfg, h, ps, items);
  }

  lemma ItemsRoot(cfg: Config, h: Memory, ps: Pendings, items: map<Addr, Item>)
    requires RootOk(cfg, h, ps) && SepsOk(h, ps)
    ensures RootOk(cfg, h.(items := items), ps) && SepsOk(h.(items := items), ps)
  {
    var g, n := h.(items := items), h.nodes[h.root];
    if n.hi != cfg.maxKey {
      CutsStay(h, g, ps, ps, n.Level() + 1, n.hi, cfg.maxKey);
    }
    forall t | t in ps
      ensures SepOk(g, ps[t])
    {
      assert SepOk(h, ps[t]);
    }
  }

  lemma ItemsChildren(h: Memory, ps: Pendings, items: map<Addr, Item>, n: Node)
    requires (n.Inner? ==> n.last < |n.keys| && n.last < |n.kids|) && Children(h, ps, n)
    ensures Children(h.(items := items), ps, n)
  {
    var g := h.(items := items);
    if n.Inner? {
      forall i | 0 <= i <= n.last
        ensures ChildOk(g, ps, n, i)
      {
        assert ChildOk(h, ps, n, i);
        var c := h.nodes[n.kids[i]];
        if c.hi != Upper(n, i) {
          CutsStay(h, g, ps, ps, n.height, c.hi, Upper(n, i));
        }
      }
    }
  }

  lemma LeafRewritten(cfg: Config, h: Memory, ps: Pendings, a: Addr, w: Node)
    requires Forest(cfg, h, ps) && a in h.nodes && h.nodes[a].Leaf? && LeafShape(cfg, w)
    requires w.lo == h.nodes[a].lo && w.hi == h.nodes[a].hi
    ensures Forest(cfg, Put(h, a, w), ps)
  {
    assert ChildrenExcept(cfg, h, ps, a) && Children(h, ps, w);
    hide Disjoint, RootOk, SepsOk, ChildrenExcept, Children;
    Rewrite(cfg, h, ps, a, w);
  }

  /** The separator of `t` enters a node with room: the others are still pending. */
  lemma EnterForest(cfg: Config, h: Memory, ps: Pendings, t: Thread, a: Addr)
    requires Forest(cfg, h, ps) && t in ps && Takes(h, ps[t], a) && h.nodes[a].last + 1 < cfg.Bf()
    ensures Shape(cfg, h.nodes[a])
    ensures var w := WithEntry(h.nodes[a], ps[t].sep, ps[t].right);
      Shape(cfg, w) && Children(h, ps - {t}, w) && Forest(cfg, Put(h, a, w), ps - {t})
  {
    assert Shape(cfg, h.nodes[a]);
    Adopt(cfg, h, ps, t, a, cfg.Bf(), h.nodes[a]);
    WithEntryShape(cfg.Bf(), cfg.maxKey, h.nodes[a], ps[t].sep, ps[t].right);
    ElsewhereAll(cfg, h, ps, t, a);
    LessPending(cfg, h, ps, t, a);
    hide Forest, Shapes, Disjoint, ChildrenExcept, RootOk, SepsOk, Children, Enterable;
    Rewrite(cfg, h, ps - {t}, a, WithEntry(h.nodes[a], ps[t].sep, ps[t].right));
  }

  lemma LessPending(cfg: Config, h: Memory, ps: Pendings, t: Thread, a: Addr)
    requires Forest(cfg, h, ps) && t in ps && Takes(h, ps[t], a)
    ensures cfg.Ok() && Shapes(cfg, h) && Disjoint(h) && RootOk(cfg, h, ps - {t}) && SepsOk(h, ps - {t})
  {
    assert SepOk(h, ps[t]);
    RootWithout(cfg, h, ps, t);
  }

  // ---- Cutting a node -----------------------------------------------------------------------

  /** The node at `a` is not a child that a split has cut: its parent knows where it ends. */
  ghost predicate Whole(h: Memory, ps: Pendings, a: Addr)
    requires a in h.nodes
  {
    forall t :: t in ps && ps[t].Split? ==> !(ps[t].level == h.nodes[a].Level() + 1 && ps[t].sep == h.nodes[a].hi)
  }

  /** `l` and `r` are the two parts of the node at `a`. */
  ghost predicate PartsOf(cfg: Config, h: Memory, ps: Pendings, a: Addr, l: Node, r: Node) {
    && a in h.nodes && Shape(cfg, l) && Shape(cfg, r) && Children(h, ps, l) && Children(h, ps, r)
    && l.Level() == r.Level() == h.nodes[a].Level()
    && l.lo == h.nodes[a].lo && l.hi == r.lo && r.hi == h.nodes[a].hi
  }

  lemma CutApart(cfg: Config, h: Memory, a: Addr, l: Node, d: Addr, r: Node)
    requires Shapes(cfg, h) && Disjoint(h) && a in h.nodes && d !in h.nodes && l.lo < l.hi && r.lo < r.hi
    requires l.Level() == r.Level() == h.nodes[a].Level()
    requires l.lo == h.nodes[a].lo && l.hi == r.lo && r.hi == h.nodes[a].hi
    ensures Disjoint(Put(Put(h, d, r), a, l))
  {
    var g := Put(Put(h, d, r), a, l);
    forall x, y | x in g.nodes && y in g.nodes && x != y && g.nodes[x].Level() == g.nodes[y].Level()
      ensures Apart(g.nodes[x], g.nodes[y])
    {
      var x0 := if x == d then a else x;
      var y0 := if y == d then a else y;
      assert x0 != y0 ==> Apart(h.nodes[x0], h.nodes[y0]);
    }
  }

  /** Two parts in place of a whole node: one more separator is pending, the others stay so. */
  lemma CutForest(cfg: Config, h: Memory, ps: Pendings, t: Thread, a: Addr, l: Node, d: Addr, r: Node)
    requires cfg.Ok() && Shapes(cfg, h) && Disjoint(h) && RootOk(cfg, h, ps) && SepsOk(h, ps)
    requires PartsOf(cfg, h, ps, a, l, r) && d !in h.nodes && ChildrenExcept(cfg, h, ps, a)
    requires t !in ps && Whole(h, ps, a) && Reachable(ps, a)
    ensures Forest(cfg, Put(Put(h, d, r), a, l), ps[t := Split(r.lo, d, r.Level() + 1)])
  {
    var g, qs := Put(Put(h, d, r), a, l), ps[t := Split(r.lo, d, r.Level() + 1)];
    assert Shapes(cfg, g);
    CutApart(cfg, h, a, l, d, r);
    CutRoot(cfg, h, ps, t, a, l, d, r);
    CutSeps(h, ps, t, a, l, d, r);
    hide Disjoint, RootOk, Shape, Whole, Reachable;
    assert AllChildren(cfg, g, qs) by {
      forall b | b in g.nodes
        ensures Children(g, qs, g.nodes[b])
      {
        CutChildren(h, ps, t, a, l, d, r, g.nodes[b]);
      }
    }
  }

  lemma CutChildren(h: Memory, ps: Pendings, t: Thread, a: Addr, l: Node, d: Addr, r: Node, n: Node)
    requires a in h.nodes && d !in h.nodes && t !in ps && Whole(h, ps, a) && Reachable(ps, a) && SepsOk(h, ps)
    requires l.Level() == r.Level() == h.nodes[a].Level()
    requires l.lo == h.nodes[a].lo && l.hi == r.lo && r.hi == h.nodes[a].hi
    requires (n.Inner? ==> n.last < |n.keys| && n.last < |n.kids|) && Children(h, ps, n)
    ensures Children(Put(Put(h, d, r), a, l), ps[t := Split(r.lo, d, r.Level() + 1)], n)
  {
    var g, qs := Put(Put(h, d, r), a, l), ps[t := Split(r.lo, d, r.Level() + 1)];
    if n.Inner? {
      forall i | 0 <= i <= n.last
        ensures ChildOk(g, qs, n, i)
      {
        assert ChildOk(h, ps, n, i);
        CutChild(h, ps, t, a, l, d, r, n, i);
      }
    }
  }

  lemma CutChild(h: Memory, ps: Pendings, t: Thread, a: Addr, l: Node, d: Addr, r: Node, n: Node, i: nat)
    requires a in h.nodes && d !in h.nodes && t !in ps && Whole(h, ps, a) && Reachable(ps, a) && SepsOk(h, ps)
    requires l.Level() == r.Level() == h.nodes[a].Level()
    requires l.lo == h.nodes[a].lo && l.hi == r.lo && r.hi == h.nodes[a].hi
    requires n.Inner? && i <= n.last < |n.keys| && n.last < |n.kids| && ChildOk(h, ps, n, i)
    ensures ChildOk(Put(Put(h, d, r), a, l), ps[t := Split(r.lo, d, r.Level() + 1)], n, i)
  {
    var g, qs := Put(Put(h, d, r), a, l), ps[t := Split(r.lo, d, r.Level() + 1)];
    var c := h.nodes[n.kids[i]];
    assert Reachable(qs, n.kids[i]);
    if n.kids[i] == a {
      assert c.hi == Upper(n, i);
      assert CutAt(g, qs, t, n.height, l.hi, Upper(n, i));
    } else if c.hi != Upper(n, i) {
      CutsStay(h, g, ps, qs, n.height, c.hi, Upper(n, i));
    }
  }

  lemma CutRoot(cfg: Config, h: Memory, ps: Pendings, t: Thread, a: Addr, l: Node, d: Addr, r: Node)
    requires RootOk(cfg, h, ps) && SepsOk(h, ps) && a in h.nodes && d !in h.nodes && t !in ps
    requires l.Level() == r.Level() == h.nodes[a].Level() && Whole(h, ps, a) && Reachable(ps, a)
    requires l.lo == h.nodes[a].lo && l.hi == r.lo && r.hi == h.nodes[a].hi
    ensures RootOk(cfg, Put(Put(h, d, r), a, l), ps[t := Split(r.lo, d, r.Level() + 1)])
  {
    var g, qs := Put(Put(h, d, r), a, l), ps[t := Split(r.lo, d, r.Level() + 1)];
    var n := h.nodes[h.root];
    if a == h.root {
      assert n.hi == cfg.maxKey;
      assert CutAt(g, qs, t, n.Level() + 1, l.hi, cfg.maxKey);
    } else if n.hi != cfg.maxKey {
      CutsStay(h, g, ps, qs, n.Level() + 1, n.hi, cfg.maxKey);
    }
  }

  lemma CutSeps(h: Memory, ps: Pendings, t: Thread, a: Addr, l: Node, d: Addr, r: Node)
    requires SepsOk(h, ps) && a in h.nodes && d !in h.nodes && t !in ps && h.root in h.nodes
    requires l.Level() == r.Level() == h.nodes[a].Level() <= h.nodes[h.root].Level()
    requires l.lo == h.nodes[a].lo && l.hi == r.lo && r.hi == h.nodes[a].hi && Reachable(ps, a)
    ensures SepsOk(Put(Put(h, d, r), a, l), ps[t := Split(r.lo, d, r.Level() + 1)])
  {
    var g, qs := Put(Put(h, d, r), a, l), ps[t := Split(r.lo, d, r.Level() + 1)];
    forall u | u in qs
      ensures SepOk(g, qs[u])
    {
      assert u in ps ==> SepOk(h, ps[u]);
    }
  }

  // ---- Cutting a leaf, an inner node and the root ----------------------------------------------

  lemma LeafForest(cfg: Config, h: Memory, ps: Pendings, t: Thread, a: Addr, l: Node, d: Addr, r: Node)
    requires Forest(cfg, h, ps) && a in h.nodes && h.nodes[a].Leaf? && d !in h.nodes
    requires LeafShape(cfg, l) && LeafShape(cfg, r)
    requires l.lo == h.nodes[a].lo && l.hi == r.lo && r.hi == h.nodes[a].hi
    requires t !in ps && Whole(h, ps, a) && Reachable(ps, a)
    ensures Forest(cfg, Put(Put(h, d, r), a, l), ps[t := Split(r.lo, d, 1)])
  {
    hide Whole, Reachable, Disjoint, RootOk, SepsOk;
    assert ChildrenExcept(cfg, h, ps, a) && PartsOf(cfg, h, ps, a, l, r);
    hide Shapes, PartsOf, ChildrenExcept, Children;
    CutForest(cfg, h, ps, t, a, l, d, r);
  }

  /** The overfull node image, with the separator of `t` entered, and its halves. */
  lemma Overfull(cfg: Config, h: Memory, ps: Pendings, t: Thread, a: Addr)
    requires Forest(cfg, h, ps) && t in ps && Takes(h, ps[t], a) && h.nodes[a].last + 1 == cfg.Bf()
    ensures cfg.Bf() >= 4 && |Roomier(h.nodes[a]).keys| == |Roomier(h.nodes[a]).kids| == cfg.Bf() + 1
    ensures var w := WithEntry(Roomier(h.nodes[a]), ps[t].sep, ps[t].right); var mid := cfg.Bf() / 2;
      && Splittable(cfg.Bf() + 1, cfg.maxKey, w, mid) && w.height == ps[t].level
      && PartsOf(cfg, h, ps - {t}, a, LeftHalf(w, mid), RightHalf(w, mid))
      && w.keys[mid] == RightHalf(w, mid).lo
  {
    BfFacts(cfg);
    var p := ps[t];
    assert Shape(cfg, h.nodes[a]);
    var n, size, mid := Roomier(h.nodes[a]), cfg.Bf() + 1, cfg.Bf() / 2;
    Adopt(cfg, h, ps, t, a, size, n);
    hide Forest, Children, RoomyShape;
    WithEntryShape(size, cfg.maxKey, n, p.sep, p.right);
    var w := WithEntry(n, p.sep, p.right);
    HalvesShape(size, cfg.maxKey, w, mid);
    HalvesChildren(cfg, h, ps - {t}, w, mid);
  }

  lemma HalvesChildren(cfg: Config, h: Memory, ps: Pendings, w: Node, mid: nat)
    requires Splittable(cfg.Bf() + 1, cfg.maxKey, w, mid) && Children(h, ps, w)
    ensures Children(h, ps, LeftHalf(w, mid)) && Children(h, ps, RightHalf(w, mid))
  {
    var size := cfg.Bf() + 1;
    var l, r := LeftHalf(w, mid), RightHalf(w, mid);
    forall i | 0 <= i <= l.last
      ensures ChildOk(h, ps, l, i)
    {
      LeftParts(size, cfg.maxKey, w, mid, i);
      SameChild(h, ps, w, i, l, i);
    }
    forall i | 0 <= i <= r.last
      ensures ChildOk(h, ps, r, i)
    {
      RightParts(size, cfg.maxKey, w, mid, i);
      SameChild(h, ps, w, mid + 1 + i, r, i);
    }
  }

  lemma WithoutPending(ps: Pendings, t: Thread, p: Pending, a: Addr)
    requires Reachable(ps, a)
    ensures (ps - {t})[t := p] == ps[t := p] && Reachable(ps - {t}, a)
  {
  }

  /** The separator of `t` enters a full node, which is cut into `l` and `r`: the separator between them is
      pending next. */
  lemma SplitForest(cfg: Config, h: Memory, ps: Pendings, t: Thread, a: Addr, l: Node, d: Addr, r: Node)
    requires Forest(cfg, h, ps) && t in ps && Takes(h, ps[t], a) && d !in h.nodes
    requires PartsOf(cfg, h, ps - {t}, a, l, r) && Whole(h, ps - {t}, a) && Reachable(ps, a)
    ensures Forest(cfg, Put(Put(h, d, r), a, l), ps[t := Split(r.lo, d, r.Level() + 1)])
  {
    hide Forest, Shapes, Disjoint, ChildrenExcept, RootOk, SepsOk, Reachable, PartsOf, Takes;
    ElsewhereAll(cfg, h, ps, t, a);
    LessPending(cfg, h, ps, t, a);
    WithoutPending(ps, t, Split(r.lo, d, r.Level() + 1), a);
    hide Whole;
    CutForest(cfg, h, ps - {t}, t, a, l, d, r);
  }

  /** On the level of the root there is only the root, and what splits have cut off. */
  lemma OneOnTop(cfg: Config, h: Memory, ps: Pendings, a: Addr)
    requires Forest(cfg, h, ps) && a in h.nodes && h.nodes[a].Level() >= h.nodes[h.root].Level() && Reachable(ps, a)
    ensures a == h.root
  {
    var n := h.nodes[h.root];
    assert Shape(cfg, h.nodes[a]) && Shape(cfg, n);
    if n.hi != cfg.maxKey {
      var u :| CutAt(h, ps, u, n.Level() + 1, n.hi, cfg.maxKey);
      assert SepOk(h, ps[u]);
    }
  }

  /** The separator of `t` must enter above the root: nothing but its own cut is there. */
  lemma CutOfRoot(cfg: Config, h: Memory, ps: Pendings, t: Thread)
    requires Forest(cfg, h, ps) && t in ps && ps[t].level > h.nodes[h.root].Level()
    ensures SepOk(h, ps[t]) && ps[t].level == h.nodes[h.root].Level() + 1
    ensures h.nodes[h.root].hi == ps[t].sep && h.nodes[ps[t].right].hi == cfg.maxKey
    ensures forall u :: u in ps && u != t ==> ps[u].Split? && ps[u].level <= h.nodes[h.root].Level()
  {
    var n := h.nodes[h.root];
    assert SepOk(h, ps[t]) && Shape(cfg, h.nodes[ps[t].right]) && Shape(cfg, n);
    assert Apart(h.nodes[ps[t].right], n);
    var u :| CutAt(h, ps, u, n.Level() + 1, n.hi, cfg.maxKey);
    assert SepOk(h, ps[u]) && Shape(cfg, h.nodes[ps[u].right]);
    forall v | v in ps && ps[v].Split? && ps[v].level > n.Level()
      ensures v == u
    {
      assert SepOk(h, ps[v]) && Shape(cfg, h.nodes[ps[v].right]) && Apart(h.nodes[ps[v].right], n);
    }
  }

  /** The new root over the old one and the node right of it. */
  lemma RootForest(cfg: Config, h: Memory, ps: Pendings, t: Thread, d: Addr)
    requires Forest(cfg, h, ps) && t in ps && ps[t].level > h.nodes[h.root].Level() && d !in h.nodes
    ensures cfg.Bf() >= 4 && ps[t].Split?
    ensures var n := NewRoot(cfg, h.root, ps[t]);
      && Shape(cfg, n) && Children(h, ps - {t}, n)
      && Forest(cfg, Put(h, d, n).(root := d), ps - {t})
  {
    BfFacts(cfg);
    CutOfRoot(cfg, h, ps, t);
    RightsDiffer(cfg, h, ps, t);
    var n := NewRoot(cfg, h.root, ps[t]);
    var g := Put(h, d, n).(root := d);
    assert Shape(cfg, h.nodes[ps[t].right]) && Shape(cfg, h.nodes[h.root]);
    assert Shape(cfg, n);
    assert Children(h, ps - {t}, n) by {
      assert ChildOk(h, ps - {t}, n, 0) && ChildOk(h, ps - {t}, n, 1);
    }
    RootChildren(cfg, h, ps, t, d);
  }

  lemma RootChildren(cfg: Config, h: Memory, ps: Pendings, t: Thread, d: Addr)
    requires Forest(cfg, h, ps) && t in ps && SepOk(h, ps[t]) && ps[t].level == h.nodes[h.root].Level() + 1
    requires d !in h.nodes && cfg.Bf() >= 4
    requires forall u :: u in ps && u != t ==> ps[u].Split? && ps[u].level <= h.nodes[h.root].Level()
    requires var n := NewRoot(cfg, h.root, ps[t]); Shape(cfg, n) && Children(h, ps - {t}, n)
    ensures Forest(cfg, Put(h, d, NewRoot(cfg, h.root, ps[t])).(root := d), ps - {t})
  {
    var n := NewRoot(cfg, h.root, ps[t]);
    var g := Put(h, d, n).(root := d);
    hide Shape;
    assert Shapes(cfg, g) && Disjoint(g);
    NewRootOk(cfg, h, ps, t, d);
    hide Disjoint, SepsOk;
    forall b | b in g.nodes
      ensures Children(g, ps - {t}, g.nodes[b])
    {
      if b != d {
        BelowRoot(cfg, h, ps, t, b);
      }
      AddedNode(h, ps - {t}, d, n, g.nodes[b]);
    }
  }

  lemma NewRootOk(cfg: Config, h: Memory, ps: Pendings, t: Thread, d: Addr)
    requires RootOk(cfg, h, ps) && SepsOk(h, ps) && t in ps && ps[t].Split? && d !in h.nodes && cfg.Bf() >= 4
    requires ps[t].level == h.nodes[h.root].Level() + 1
    requires forall u :: u in ps && u != t ==> ps[u].Split? && ps[u].level <= h.nodes[h.root].Level()
    ensures var g := Put(h, d, NewRoot(cfg, h.root, ps[t])).(root := d);
      RootOk(cfg, g, ps - {t}) && SepsOk(g, ps - {t})
  {
    var g := Put(h, d, NewRoot(cfg, h.root, ps[t])).(root := d);
    forall u | u in ps - {t}
      ensures SepOk(g, (ps - {t})[u])
    {
      assert SepOk(h, ps[u]);
    }
  }

  /** The cut of the root is no child's cut. */
  lemma BelowRoot(cfg: Config, h: Memory, ps: Pendings, t: Thread, b: Addr)
    requires Shapes(cfg, h) && AllChildren(cfg, h, ps) && h.root in h.nodes && b in h.nodes
    requires t in ps && ps[t].Split? && h.nodes[b].Level() < ps[t].level
    ensures Children(h, ps - {t}, h.nodes[b])
  {
    var n := h.nodes[b];
    assert Shape(cfg, n) && Children(h, ps, n);
    if n.Inner? {
      forall i | 0 <= i <= n.last
        ensures ChildOk(h, ps - {t}, n, i)
      {
        assert ChildOk(h, ps, n, i);
        var c := h.nodes[n.kids[i]];
        if c.hi != Upper(n, i) {
          var u :| CutAt(h, ps, u, n.height, c.hi, Upper(n, i));
          assert CutAt(h, ps - {t}, u, n.height, c.hi, Upper(n, i));
        }
      }
    }
  }

  lemma AddedNode(h: Memory, ps: Pendings, d: Addr, r: Node, n: Node)
    requires d !in h.nodes && (n.Inner? ==> n.last < |n.keys| && n.last < |n.kids|) && Children(h, ps, n)
    ensures Children(Put(h, d, r).(root := d), ps, n)
  {
    var g := Put(h, d, r).(root := d);
    if n.Inner? {
      forall i | 0 <= i <= n.last
        ensures ChildOk(g, ps, n, i)
      {
        assert ChildOk(h, ps, n, i);
        var c := h.nodes[n.kids[i]];
        if c.hi != Upper(n, i) {
          CutsStay(h, g, ps, ps, n.height, c.hi, Upper(n, i));
        }
      }
    }
  }
}
