/** What the single steps of the Faunus index do to the whole invariant, and traces of the states that
    readers can meet between two remote memory operations. */
module FaunusSteps {
  import opened Bits
  import opened Fresh
  import opened FaunusNodes
  import opened FaunusRouting
  import opened FaunusStructure
  import opened FaunusContents

  /** Remote memory after one operation, and the abstract map at that moment. */
  datatype Snapshot = Snapshot(mem: Memory, model: map<Key, Value>)

  /** Each state of the trace is safe for readers and evolves from the one before. */
  ghost predicate TraceOk(cfg: Config, t: seq<Snapshot>) {
    t != [] ==>
      var s := t[|t| - 1];
      && ReaderSafe(cfg, s.mem, s.model)
      && TraceOk(cfg, t[..|t| - 1])
      && (|t| > 1 ==> Evolves(t[|t| - 2].mem, s.mem) && ItemsKept(t[|t| - 2].mem, s.mem))
  }

  /** An item that is not freed is not changed. */
  ghost predicate ItemsKept(g: Memory, h: Memory) {
    forall a :: a in g.items && a in h.items ==> h.items[a] == g.items[a]
  }

  lemma TraceAppend(cfg: Config, t: seq<Snapshot>, s: Snapshot)
    requires TraceOk(cfg, t) && t != [] && ReaderSafe(cfg, s.mem, s.model)
    requires Evolves(t[|t| - 1].mem, s.mem) && ItemsKept(t[|t| - 1].mem, s.mem)
    ensures TraceOk(cfg, t + [s])
  {
    assert (t + [s])[..|t|] == t;
  }

  function RootLevel(h: Memory): nat {
    if h.root in h.nodes then h.nodes[h.root].Level() else 0
  }

  /** The leaf responsible for `k` has no free block. */
  ghost predicate LeafFull(cfg: Config, h: Memory, k: Key) {
    exists a :: a in h.nodes && h.nodes[a].Leaf? && h.nodes[a].Covers(k) && Used(h.nodes[a].blocks) == cfg.Bf()
  }

  /** What work on inner nodes leaves alone: items, leaves and lock words; new nodes are inner
      nodes and unlocked. */
  ghost predicate InnerWork(g: Memory, h: Memory) {
    && h.items == g.items
    && (forall a :: a in g.nodes ==> InnerWorkAt(g, h, a))
    && (forall a :: a in h.nodes && a !in g.nodes ==> h.nodes[a].Inner? && h.nodes[a].lock == 0)
  }

  ghost predicate InnerWorkAt(g: Memory, h: Memory, a: Addr)
    requires a in g.nodes
  {
    && a in h.nodes
    && h.nodes[a].lock == g.nodes[a].lock
    && (if g.nodes[a].Leaf? then h.nodes[a] == g.nodes[a] else h.nodes[a].Inner?)
  }

  lemma InnerWorkTransitive(f: Memory, g: Memory, h: Memory)
    requires InnerWork(f, g) && InnerWork(g, h)
    ensures InnerWork(f, h)
  {
    forall a | a in f.nodes
      ensures InnerWorkAt(f, h, a)
    {
      assert InnerWorkAt(f, g, a);
      assert InnerWorkAt(g, h, a);
    }
    forall a | a in h.nodes && a !in f.nodes
      ensures h.nodes[a].Inner? && h.nodes[a].lock == 0
    {
      assert a in g.nodes ==> InnerWorkAt(g, h, a);
    }
  }

  ghost predicate LoadsExcept(cfg: Config, h: Memory, a: Addr) {
    forall b :: b in h.nodes && b != a && h.nodes[b].Leaf? ==> Used(h.nodes[b].blocks) <= cfg.Cap()
  }

  /** The blocks of all leaves but the one at `a` are unlocked. */
  ghost predicate BlocksUnlockedExcept(h: Memory, a: Addr) {
    forall b, i :: b in h.nodes && b != a && h.nodes[b].Leaf? && 0 <= i < |h.nodes[b].blocks|
                   ==> !h.nodes[b].blocks[i].locked
  }

  /** All nodes but the one at `a` are unlocked. */
  ghost predicate UnlockedExcept(h: Memory, a: Addr) {
    forall b :: b in h.nodes && b != a ==> h.nodes[b].lock == 0
  }

  // ---- The steps of a separator, on memory ------------------------------------------------------

  /** The trace grew by states with abstract map `m`. */
  ghost predicate Extends(t: seq<Snapshot>, u: seq<Snapshot>, m: map<Key, Value>) {
    t <= u && forall i :: |t| <= i < |u| ==> u[i].model == m
  }

  lemma ExtendsReflexive(t: seq<Snapshot>, m: map<Key, Value>)
    ensures Extends(t, t, m)
  {
  }

  lemma ExtendsTransitive(t: seq<Snapshot>, u: seq<Snapshot>, v: seq<Snapshot>, m: map<Key, Value>)
    requires Extends(t, u, m) && Extends(u, v, m)
    ensures Extends(t, v, m)
  {
  }

  lemma SepBounded(cfg: Config, h: Memory, m: map<Key, Value>, p: Pending)
    requires TreeInv(cfg, h, m, p) && p.Split?
    ensures p.sep < cfg.maxKey && h.root in h.nodes && p.level <= RootLevel(h) + 1
  {
    assert Shape(cfg, h.nodes[p.right]);
  }

  lemma LockKeepsInv(cfg: Config, h: Memory, m: map<Key, Value>, p: Pending, a: Addr, lock: nat)
    requires TreeInv(cfg, h, m, p) && a in h.nodes
    ensures var g := Put(h, a, Relock(h.nodes[a], lock));
      TreeInv(cfg, g, m, p) && ReaderSafe(cfg, g, m) && Evolves(h, g)
  {
    hide Structure;
    var n := Relock(h.nodes[a], lock);
    var g := Put(h, a, n);
    PutLockStructure(cfg, h, p, a, lock);
    if n.Leaf? {
      LocksKeepExact(h.items, m, h.nodes[a], n);
    }
    assert AllExact(g, m);
    InvReaderSafe(cfg, g, m, p);
  }

  lemma EnterKeepsInv(cfg: Config, h: Memory, m: map<Key, Value>, p: Pending, a: Addr)
    requires TreeInv(cfg, h, m, p) && p.Split? && a in h.nodes
    requires h.nodes[a].Inner? && h.nodes[a].height == p.level && h.nodes[a].Covers(p.sep)
    requires h.nodes[a].last + 1 < cfg.Bf() && Shape(cfg, h.nodes[a])
    ensures var g := Put(h, a, WithEntry(h.nodes[a], p.sep, p.right));
      TreeInv(cfg, g, m, NoSplit) && ReaderSafe(cfg, g, m) && Evolves(h, g) && InnerWork(h, g)
  {
    var w := WithEntry(h.nodes[a], p.sep, p.right);
    var g := Put(h, a, w);
    assert w.lock == h.nodes[a].lock && w.height == h.nodes[a].height && w.lo == h.nodes[a].lo && w.hi == h.nodes[a].hi;
    hide Structure, Shape, WithEntry, KeysBounded, Exact;
    EnterSettles(cfg, h, p, a);
    InnerPutExact(h, m, a, w);
    assert TreeInv(cfg, g, m, NoSplit);
    hide TreeInv, AllExact;
    InvReaderSafe(cfg, g, m, NoSplit);
    hide ReaderSafe;
  }

  lemma InnerPutExact(h: Memory, m: map<Key, Value>, a: Addr, w: Node)
    requires AllExact(h, m) && w.Inner?
    ensures AllExact(Put(h, a, w), m)
  {
    assert Exact(h.items, m, w);
    hide Exact;
  }

  lemma SplitKeepsInv(cfg: Config, h: Memory, m: map<Key, Value>, p: Pending, a: Addr, d: Addr)
    requires TreeInv(cfg, h, m, p) && p.Split? && a in h.nodes && d !in h.nodes
    requires h.nodes[a].Inner? && h.nodes[a].height == p.level && h.nodes[a].Covers(p.sep)
    requires h.nodes[a].last + 1 == cfg.Bf() && Shape(cfg, h.nodes[a])
    ensures cfg.Bf() >= 4
    ensures var w := WithEntry(Roomier(h.nodes[a]), p.sep, p.right); var mid := cfg.Bf() / 2;
      var r := RightHalf(w, mid);
      var f := Put(h, d, r);
      var g := Put(f, a, LeftHalf(w, mid));
      && ReaderSafe(cfg, f, m) && Evolves(h, f)
      && ReaderSafe(cfg, g, m) && Evolves(f, g)
      && TreeInv(cfg, g, m, Split(w.keys[mid], d, p.level + 1))
  {
    assert cfg.Ok();
    BfFacts(cfg);
    hide Structure, Shape, ReaderSafe, Evolves, KeysBounded, Exact, RoomyShape, WithEntry, Enterable;
    SplitMovesUp(cfg, h, p, a, d);
    var w := WithEntry(Roomier(h.nodes[a]), p.sep, p.right);
    var mid := cfg.Bf() / 2;
    var l, r := LeftHalf(w, mid), RightHalf(w, mid);
    var q := Split(w.keys[mid], d, p.level + 1);
    InnerPutExact(h, m, d, r);
    InnerPutExact(Put(h, d, r), m, a, l);
    assert TreeInv(cfg, Put(Put(h, d, r), a, l), m, q);
    hide TreeInv, AllExact;
    HalvesSafe(cfg, h, m, p, a, l, d, r, q);
  }

  /** Writing the new half first and the old one second is safe for readers at both moments. */
  lemma HalvesSafe(cfg: Config, h: Memory, m: map<Key, Value>, p: Pending, a: Addr, l: Node, d: Addr, r: Node,
                   q: Pending)
    requires TreeInv(cfg, h, m, p) && CutOk(cfg, h, a, l, d, r) && l.Inner? && r.Inner?
    requires TreeInv(cfg, Put(Put(h, d, r), a, l), m, q)
    ensures ReaderSafe(cfg, Put(h, d, r), m) && Evolves(h, Put(h, d, r))
    ensures ReaderSafe(cfg, Put(Put(h, d, r), a, l), m) && Evolves(Put(h, d, r), Put(Put(h, d, r), a, l))
  {
    hide TreeInv, ReaderSafe;
    InvReaderSafe(cfg, h, m, p);
    OwnLinksAreWeak(h, r);
    PutReaderSafe(cfg, h, m, d, r);
    InvReaderSafe(cfg, Put(Put(h, d, r), a, l), m, q);
    CutEvolves(cfg, h, a, l, d, r);
  }

  lemma CutEvolves(cfg: Config, h: Memory, a: Addr, l: Node, d: Addr, r: Node)
    requires CutOk(cfg, h, a, l, d, r)
    ensures Evolves(Put(h, d, r), Put(Put(h, d, r), a, l))
  {
    hide OwnLinks;
  }

  lemma RootKeepsInv(cfg: Config, h: Memory, m: map<Key, Value>, p: Pending, d: Addr)
    requires TreeInv(cfg, h, m, p) && p.Split? && p.level == RootLevel(h) + 1 && d !in h.nodes
    ensures cfg.Bf() >= 4
    ensures var f := Put(h, d, NewRoot(cfg, h.root, p)); var g := f.(root := d);
      && ReaderSafe(cfg, f, m) && Evolves(h, f)
      && ReaderSafe(cfg, g, m) && Evolves(f, g)
      && TreeInv(cfg, g, m, NoSplit) && InnerWork(h, g)
  {
    RootGrows(cfg, h, p, d);
    var n := NewRoot(cfg, h.root, p);
    InvReaderSafe(cfg, h, m, p);
    OwnLinksAreWeak(h, n);
    PutReaderSafe(cfg, h, m, d, n);
    var g := Put(h, d, n).(root := d);
    InvReaderSafe(cfg, g, m, NoSplit);
  }

  /** Locking one inner node. */
  lemma LockStep(h0: Memory, h1: Memory, a: Addr)
    requires a in h0.nodes && h0.nodes[a].Inner? && h1 == Put(h0, a, Relock(h0.nodes[a], 1))
    ensures forall l :: UnlockedFrom(h0, l) && h0.nodes[a].height < l ==> UnlockedFrom(h1, l)
  {
  }

  lemma WorkedNode(h1: Memory, h2: Memory, a: Addr)
    requires InnerWork(h1, h2) && a in h1.nodes
    ensures a in h2.nodes && h2.nodes[a].lock == h1.nodes[a].lock
  {
    assert InnerWorkAt(h1, h2, a);
  }

  lemma UnlockStep(h0: Memory, h1: Memory, h2: Memory, h3: Memory, a: Addr)
    requires a in h0.nodes && h0.nodes[a].Inner? && h0.nodes[a].lock == 0
    requires h1 == Put(h0, a, Relock(h0.nodes[a], 1)) && InnerWork(h1, h2)
    requires a in h2.nodes && h3 == Put(h2, a, Relock(h2.nodes[a], 0))
    ensures InnerWork(h0, h3)
  {
    forall b | b in h0.nodes
      ensures InnerWorkAt(h0, h3, b)
    {
      assert InnerWorkAt(h1, h2, b);
    }
  }

  lemma SplitFrame(h: Memory, g: Memory, a: Addr, d: Addr, l: Node, r: Node)
    requires a in h.nodes && d !in h.nodes && h.nodes[a].Inner? && l.Inner? && r.Inner?
    requires l.lock == h.nodes[a].lock && r.lock == 0
    requires InnerWork(Put(Put(h, d, r), a, l), g)
    ensures InnerWork(h, g)
  {
    assert InnerWork(h, Put(Put(h, d, r), a, l));
    InnerWorkTransitive(h, Put(Put(h, d, r), a, l), g);
  }

  // ---- The steps of a leaf split, on memory ---------------------------------------------------------

  /** The leaf with the lock bit of its first `upto` blocks set to `locked`. */
  function WithLocks(n: Node, upto: nat, locked: bool): (r: Node)
    requires n.Leaf?
  {
    n.(blocks := seq(|n.blocks|, i requires 0 <= i < |n.blocks| =>
      if i < upto then n.blocks[i].(locked := locked) else n.blocks[i]))
  }

  lemma LocksKeepWord(n: Node, upto: nat, locked: bool)
    requires n.Leaf?
    ensures WithLocks(n, upto, locked).Leaf? && WithLocks(n, upto, locked).lock == n.lock
  {
  }

  lemma WithNoLocks(n: Node, locked: bool)
    requires n.Leaf?
    ensures WithLocks(n, 0, locked) == n
  {
    assert WithLocks(n, 0, locked).blocks == n.blocks;
  }

  lemma WithOneMoreLock(n: Node, i: nat, locked: bool)
    requires n.Leaf? && i < |n.blocks|
    ensures var l := WithLocks(n, i, locked);
      && |l.blocks| == |n.blocks| && l.blocks[i] == n.blocks[i]
      && l.(blocks := l.blocks[i := l.blocks[i].(locked := locked)]) == WithLocks(n, i + 1, locked)
      && SameButLocks(l, WithLocks(n, i + 1, locked))
  {
    var l := WithLocks(n, i, locked);
    assert l.blocks[i := l.blocks[i].(locked := locked)] == WithLocks(n, i + 1, locked).blocks;
  }

  lemma OneMore(t: seq<Snapshot>, s: Snapshot)
    ensures Extends(t, t + [s], s.model)
  {
  }

  lemma NodeFacts(cfg: Config, h: Memory, m: map<Key, Value>, p: Pending, a: Addr)
    requires TreeInv(cfg, h, m, p) && a in h.nodes
    ensures Shape(cfg, h.nodes[a]) && cfg.Ok() && h.root in h.nodes && h.nodes[a].Level() <= RootLevel(h)
  {
  }

  lemma UnlockedAbove(h: Memory, level: nat)
    requires UnlockedFrom(h, level)
    ensures UnlockedFrom(h, level + 1)
  {
  }

  lemma HalvesUnlocked(h: Memory, a: Addr, l: Node, d: Addr, r: Node, level: nat)
    requires UnlockedFrom(h, level) && l.Level() < level && r.Level() < level
    ensures UnlockedFrom(Put(Put(h, d, r), a, l), level)
  {
  }

  /** All that holds before and after the two writes of an inner split. */
  lemma HalvesReady(cfg: Config, h: Memory, m: map<Key, Value>, p: Pending, a: Addr, l: Node, d: Addr, r: Node)
    requires TreeInv(cfg, h, m, p) && p.Split? && a in h.nodes && d !in h.nodes && UnlockedFrom(h, p.level + 1)
    requires h.nodes[a].Inner? && h.nodes[a].height == p.level && h.nodes[a].Covers(p.sep)
      && h.nodes[a].last + 1 == cfg.Bf() >= 4
    requires InnerShape(cfg, h.nodes[a])
    requires var w := WithEntry(Roomier(h.nodes[a]), p.sep, p.right);
      l == LeftHalf(w, cfg.Bf() / 2) && r == RightHalf(w, cfg.Bf() / 2)
    requires l.Inner? && r.Inner? && l.height == r.height == p.level
    ensures ReaderSafe(cfg, Put(h, d, r), m) && Evolves(h, Put(h, d, r))
    ensures var g := Put(Put(h, d, r), a, l);
      && ReaderSafe(cfg, g, m) && Evolves(Put(h, d, r), g)
      && TreeInv(cfg, g, m, Split(r.lo, d, p.level + 1)) && UnlockedFrom(g, p.level + 1)
      && p.level <= RootLevel(h) == RootLevel(g)
  {
    hide ReaderSafe, Evolves, TreeInv, UnlockedFrom, WithEntry;
    NodeFacts(cfg, h, m, p, a);
    SplitKeepsInv(cfg, h, m, p, a, d);
    HalvesUnlocked(h, a, l, d, r, p.level + 1);
  }

  lemma LeafHasShape(cfg: Config, h: Memory, m: map<Key, Value>, a: Addr)
    requires TreeInv(cfg, h, m, NoSplit) && a in h.nodes && h.nodes[a].Leaf?
    ensures LeafShape(cfg, h.nodes[a]) && cfg.Ok()
  {
    assert Shape(cfg, h.nodes[a]);
  }

  lemma LeafIsExact(h: Memory, m: map<Key, Value>, a: Addr)
    requires AllExact(h, m) && a in h.nodes
    ensures Exact(h.items, m, h.nodes[a])
  {
  }

  lemma LocksKeepInv(cfg: Config, h: Memory, m: map<Key, Value>, a: Addr, l: Node)
    requires TreeInv(cfg, h, m, NoSplit) && a in h.nodes && SameButLocks(h.nodes[a], l)
    ensures TreeInv(cfg, Put(h, a, l), m, NoSplit) && ReaderSafe(cfg, Put(h, a, l), m) && Evolves(h, Put(h, a, l))
  {
    assert Shape(cfg, h.nodes[a]) && Shape(cfg, l) && Exact(h.items, m, h.nodes[a]);
    hide Structure, Shape, Exact, KeysBounded;
    LocksKeepExact(h.items, m, h.nodes[a], l);
    PutStructure(cfg, h, NoSplit, a, l);
    var g := Put(h, a, l);
    assert TreeInv(cfg, g, m, NoSplit);
    hide TreeInv, AllExact;
    InvReaderSafe(cfg, g, m, NoSplit);
    hide ReaderSafe;
  }

  /** Of several blocks with one key the entry has the last. */
  ghost predicate LastWins(items: map<Addr, Item>, n: Node, upto: nat, es: seq<Entry>) {
    forall j, i: nat :: 0 <= j < |es| && i < upto && Holds(items, n, i, es[j].key) ==>
      LaterBlock(items, n, upto, es[j], i)
  }

  ghost predicate LaterBlock(items: map<Addr, Item>, n: Node, upto: nat, e: Entry, i: nat) {
    exists x: nat :: i <= x < upto && Holds(items, n, x, e.key) && n.blocks[x] == e.block
  }

  /** The entries after one more used block entered the ordered map, over an entry with its key. */
  ghost predicate Entered(es: seq<Entry>, e: Entry, r: seq<Entry>, at: nat) {
    && at <= |es| && Sorted(r)
    && if EntryFor(es, e.key) then at < |es| && es[at].key == e.key && r == es[at := e]
       else r == es[..at] + [e] + es[at..]
  }

  lemma EnteredAt(es: seq<Entry>, e: Entry, r: seq<Entry>, at: nat, j: nat)
    requires Entered(es, e, r, at) && j < |r|
    ensures at < |r| && r[at] == e
    ensures j != at ==> r[j].key != e.key && r[j] in es
    ensures |r| == |es| + if EntryFor(es, e.key) then 0 else 1
  {
    assert j < at ==> r[j].key < r[at].key;
    assert at < j ==> r[at].key < r[j].key;
    if j != at {
      if EntryFor(es, e.key) {
        assert r[j] == es[j];
      } else {
        assert r[j] == es[if j < at then j else j - 1];
      }
    }
  }

  lemma GatherStep(items: map<Addr, Item>, n: Node, i: nat, es: seq<Entry>, e: Entry, r: seq<Entry>, at: nat)
    requires n.Leaf? && i < |n.blocks| && Gathered(items, n, i, es) && LastWins(items, n, i, es)
    requires Holds(items, n, i, e.key) && e.block == n.blocks[i] && Entered(es, e, r, at)
    ensures Gathered(items, n, i + 1, r) && LastWins(items, n, i + 1, r)
    ensures |r| == |es| + if EntryFor(es, e.key) then 0 else 1
  {
    assert Sorted(r) && at < |r|;
    EnteredAt(es, e, r, at, at);
    GatherListed(items, n, i, es, e, r, at);
    hide FromBlock, LaterBlock, Entered, EntryFor, Holds, Gathered, LastWins, Sorted;
    forall j: nat | j < |r|
      ensures FromBlock(items, n, i + 1, r[j])
      ensures forall x: nat :: x < i + 1 && Holds(items, n, x, r[j].key) ==> LaterBlock(items, n, i + 1, r[j], x)
    {
      GatherAt(items, n, i, es, e, r, at, j);
    }
    MakeGathered(items, n, i + 1, r);
  }

  lemma MakeGathered(items: map<Addr, Item>, n: Node, upto: nat, r: seq<Entry>)
    requires Sorted(r) && (forall j: nat :: j < |r| ==> FromBlock(items, n, upto, r[j]))
    requires forall j: nat, x: nat :: j < |r| && x < upto && Holds(items, n, x, r[j].key) ==>
      LaterBlock(items, n, upto, r[j], x)
    requires forall j: nat, k :: Holds(items, n, j, k) && j < upto ==> EntryFor(r, k)
    ensures Gathered(items, n, upto, r) && LastWins(items, n, upto, r)
  {
    hide FromBlock, LaterBlock, EntryFor, Holds, Sorted;
  }

  lemma GatherAt(items: map<Addr, Item>, n: Node, i: nat, es: seq<Entry>, e: Entry, r: seq<Entry>, at: nat, j: nat)
    requires n.Leaf? && i < |n.blocks| && Gathered(items, n, i, es) && LastWins(items, n, i, es) && j < |r|
    requires Holds(items, n, i, e.key) && e.block == n.blocks[i] && Entered(es, e, r, at)
    ensures FromBlock(items, n, i + 1, r[j])
    ensures forall x: nat :: x < i + 1 && Holds(items, n, x, r[j].key) ==> LaterBlock(items, n, i + 1, r[j], x)
  {
    EnteredAt(es, e, r, at, j);
    hide Entered, Sorted;
    if j != at {
      var y: nat :| y < |es| && es[y] == r[j];
      assert FromBlock(items, n, i, es[y]);
      FromLater(items, n, i, es[y]);
      forall x: nat | x < i + 1 && Holds(items, n, x, r[j].key)
        ensures LaterBlock(items, n, i + 1, r[j], x)
      {
        assert x != i;
        assert LaterBlock(items, n, i, es[y], x);
        var z: nat :| x <= z < i && Holds(items, n, z, r[j].key) && n.blocks[z] == r[j].block;
        assert z < i + 1;
      }
    }
  }

  lemma GatheredIsSorted(items: map<Addr, Item>, n: Node, i: nat, es: seq<Entry>)
    requires Gathered(items, n, i, es)
    ensures Sorted(es)
  {
  }

  lemma NewKey(items: map<Addr, Item>, n: Node, i: nat, es: seq<Entry>, k: Key)
    requires n.Leaf? && Distinct(items, n) && Gathered(items, n, i, es) && Holds(items, n, i, k)
    ensures !EntryFor(es, k)
  {
    forall j | 0 <= j < |es|
      ensures es[j].key != k
    {
      assert FromBlock(items, n, i, es[j]);
    }
  }

  lemma GatherListed(items: map<Addr, Item>, n: Node, i: nat, es: seq<Entry>, e: Entry, r: seq<Entry>, at: nat)
    requires Gathered(items, n, i, es) && Holds(items, n, i, e.key) && Entered(es, e, r, at)
    ensures forall j: nat, k :: Holds(items, n, j, k) && j < i + 1 ==> EntryFor(r, k)
  {
    EnteredAt(es, e, r, at, if at < |r| then at else 0);
    forall j: nat, k | Holds(items, n, j, k) && j < i + 1
      ensures EntryFor(r, k)
    {
      if j < i {
        assert EntryFor(es, k);
        if EntryFor(es, e.key) {
          var x :| 0 <= x < |es| && es[x].key == k;
          assert r[x].key == k;
        } else {
          StillListed(es, e, at, k);
        }
      } else {
        assert r[at].key == k;
      }
    }
  }

  lemma StillListed(es: seq<Entry>, e: Entry, at: nat, k: Key)
    requires EntryFor(es, k) && at <= |es|
    ensures EntryFor(es[..at] + [e] + es[at..], k)
  {
    var r := es[..at] + [e] + es[at..];
    var x :| 0 <= x < |es| && es[x].key == k;
    assert r[if x < at then x else x + 1] == es[x];
  }

  lemma FromLater(items: map<Addr, Item>, n: Node, i: nat, e: Entry)
    requires FromBlock(items, n, i, e)
    ensures FromBlock(items, n, i + 1, e)
  {
    var x: nat :| x < i && Holds(items, n, x, e.key) && n.blocks[x] == e.block;
    assert x < i + 1;
  }

  lemma GatherSkip(items: map<Addr, Item>, n: Node, i: nat, es: seq<Entry>)
    requires n.Leaf? && i < |n.blocks| && n.blocks[i].free && Gathered(items, n, i, es) && LastWins(items, n, i, es)
    ensures Gathered(items, n, i + 1, es) && LastWins(items, n, i + 1, es)
  {
    forall j | 0 <= j < |es|
      ensures FromBlock(items, n, i + 1, es[j])
    {
      assert FromBlock(items, n, i, es[j]);
    }
    forall j, x: nat | 0 <= j < |es| && x < i + 1 && Holds(items, n, x, es[j].key)
      ensures LaterBlock(items, n, i + 1, es[j], x)
    {
      assert LaterBlock(items, n, i, es[j], x);
      var z: nat :| x <= z < i && Holds(items, n, z, es[j].key) && n.blocks[z] == es[j].block;
      assert z < i + 1;
    }
  }

  lemma GatheredSorted(items: map<Addr, Item>, n: Node, es: seq<Entry>)
    requires n.Leaf? && Gathered(items, n, |n.blocks|, es)
    ensures Sorted(es)
    ensures forall j :: 0 <= j < |es| ==> !es[j].block.free
  {
    forall j | 0 <= j < |es|
      ensures !es[j].block.free
    {
      assert FromBlock(items, n, |n.blocks|, es[j]);
    }
  }

  lemma UsedBound(s: seq<Block>)
    ensures Used(s) <= |s|
  {
  }

  lemma BfFactsOf(cfg: Config, h: Memory, m: map<Key, Value>, p: Pending)
    requires TreeInv(cfg, h, m, p)
    ensures cfg.Ok() && cfg.Bf() >= 4 && cfg.Bf() % 2 == 0
  {
    BfFacts(cfg);
  }

  /** What the two halves of a leaf are, apart from their contents.  No free block of the frozen
      image, unlocked again, is found in its place afterwards. */
  ghost predicate HalvedLeaf(cfg: Config, n: Node, l: Node, r: Node) {
    && n.Leaf? && LeafShape(cfg, l) && LeafShape(cfg, r)
    && l.lo == n.lo && l.hi == r.lo && r.hi == n.hi && l.lock == n.lock && r.lock == 0
    && Used(l.blocks) <= cfg.Bf() / 2 && Used(r.blocks) <= cfg.Bf() / 2
    && (forall i :: 0 <= i < |l.blocks| ==> !l.blocks[i].locked)
    && (forall i :: 0 <= i < |r.blocks| ==> !r.blocks[i].locked)
    && |n.blocks| == cfg.Bf()
    && (forall i :: 0 <= i < |n.blocks| && l.blocks[i].free ==> l.blocks[i].addr != n.blocks[i].addr)
  }

  lemma LeafCutKeepsInv(cfg: Config, h: Memory, m: map<Key, Value>, a: Addr, n: Node, es: seq<Entry>,
                        l: Node, d: Addr, r: Node)
    requires TreeInv(cfg, h, m, NoSplit) && a in h.nodes && h.nodes[a] == n && LeafShape(cfg, n) && d !in h.nodes
    requires Gathered(h.items, n, |n.blocks|, es) && cfg.Bf() >= 4 && cfg.Bf() % 2 == 0
    requires cfg.Bf() / 2 < |es| <= cfg.Bf()
    requires l.Leaf? && r.Leaf? && |l.blocks| == |r.blocks| == cfg.Bf()
    requires l.lo == n.lo && l.hi == r.lo == es[|es| / 2].key && r.hi == n.hi && l.lock == n.lock && r.lock == 0
    requires PartOf(es, 0, |es| / 2, l) && PartOf(es, |es| / 2, |es|, r)
    ensures LeafShape(cfg, l) && LeafShape(cfg, r)
    ensures Used(l.blocks) == |es| / 2 && Used(r.blocks) == |es| - |es| / 2
    ensures ReaderSafe(cfg, Put(h, d, r), m) && Evolves(h, Put(h, d, r))
    ensures var f := Put(h, d, r); var g := Put(f, a, l);
      ReaderSafe(cfg, g, m) && Evolves(f, g) && TreeInv(cfg, g, m, Split(r.lo, d, 1))
  {
    assert Exact(h.items, m, n);
    HalvesExact(h.items, m, n, es, l, r);
    InvReaderSafe(cfg, h, m, NoSplit);
    PutReaderSafe(cfg, h, m, d, r);
    LeafCutStructure(cfg, h, a, l, d, r);
    PutLeftLeaf(cfg, h, m, a, l, d, r);
  }

  lemma PutLeftLeaf(cfg: Config, h: Memory, m: map<Key, Value>, a: Addr, l: Node, d: Addr, r: Node)
    requires TreeInv(cfg, h, m, NoSplit) && a in h.nodes && h.nodes[a].Leaf? && d !in h.nodes && l.Leaf?
    requires Structure(cfg, Put(Put(h, d, r), a, l), Split(r.lo, d, 1))
    requires Exact(h.items, m, l) && Exact(h.items, m, r) && l.lo == h.nodes[a].lo && l.hi <= h.nodes[a].hi
    ensures var f := Put(h, d, r); var g := Put(f, a, l);
      ReaderSafe(cfg, g, m) && Evolves(f, g) && TreeInv(cfg, g, m, Split(r.lo, d, 1))
  {
    hide Structure, Exact;
    var g := Put(Put(h, d, r), a, l);
    assert AllExact(g, m);
    hide ReaderSafe;
    InvReaderSafe(cfg, g, m, Split(r.lo, d, 1));
  }

  lemma HalvesExact(items: map<Addr, Item>, m: map<Key, Value>, n: Node, es: seq<Entry>, l: Node, r: Node)
    requires n.Leaf? && Exact(items, m, n) && Gathered(items, n, |n.blocks|, es) && |es| >= 2
    requires PartOf(es, 0, |es| / 2, l) && PartOf(es, |es| / 2, |es|, r)
    requires l.lo == n.lo && l.hi == r.lo == es[|es| / 2].key && r.hi == n.hi
    ensures n.lo < l.hi < n.hi
    ensures Exact(items, m, l) && Exact(items, m, r)
    ensures Used(l.blocks) == |es| / 2 && Used(r.blocks) == |es| - |es| / 2
  {
    hide Exact, PartOf;
    var mid := |es| / 2;
    MiddleInside(items, m, n, es);
    EntriesInside(items, m, n, es);
    PartIsLeaf(es, 0, mid, l);
    PartIsLeaf(es, mid, |es|, r);
    assert forall j :: 0 <= j < mid ==> es[j].key < es[mid].key;
    assert forall j :: mid <= j < |es| ==> es[mid].key <= es[j].key;
    HalfExact(items, m, n, es, 0, mid, l);
    HalfExact(items, m, n, es, mid, |es|, r);
  }

  lemma PartIsLeaf(es: seq<Entry>, from: nat, to: nat, l: Node)
    requires PartOf(es, from, to, l)
    ensures l.Leaf? && from <= to <= |es|
  {
  }

  lemma HalfExact(items: map<Addr, Item>, m: map<Key, Value>, n: Node, es: seq<Entry>, from: nat, to: nat, l: Node)
    requires n.Leaf? && Exact(items, m, n) && Gathered(items, n, |n.blocks|, es) && PartOf(es, from, to, l)
    requires n.lo <= l.lo && l.hi <= n.hi
    requires forall j :: 0 <= j < |es| ==> (l.Covers(es[j].key) <==> from <= j < to)
    ensures Exact(items, m, l) && Used(l.blocks) == to - from
  {
    PartHolds(items, n, es, from, to, l);
    PartExact(items, m, n, es, from, to, l);
  }

  lemma LeafCutStructure(cfg: Config, h: Memory, a: Addr, l: Node, d: Addr, r: Node)
    requires Structure(cfg, h, NoSplit) && a in h.nodes && d !in h.nodes
    requires LeafShape(cfg, l) && LeafShape(cfg, r) && h.nodes[a].Leaf?
    requires l.lo == h.nodes[a].lo && l.hi == r.lo && r.hi == h.nodes[a].hi
    ensures Structure(cfg, Put(Put(h, d, r), a, l), Split(r.lo, d, 1))
  {
    LeafCutParts(cfg, h, a, l, d, r);
    hide Structure, Shapes, Disjoint, Top, CutOk, LinksExcept;
    Cut(cfg, h, a, l, d, r);
  }

  lemma LeafCutParts(cfg: Config, h: Memory, a: Addr, l: Node, d: Addr, r: Node)
    requires Structure(cfg, h, NoSplit) && a in h.nodes && d !in h.nodes
    requires LeafShape(cfg, l) && LeafShape(cfg, r) && h.nodes[a].Leaf?
    requires l.lo == h.nodes[a].lo && l.hi == r.lo && r.hi == h.nodes[a].hi
    ensures cfg.Ok() && Shapes(cfg, h) && Disjoint(h) && Top(cfg, h)
    ensures CutOk(cfg, h, a, l, d, r) && LinksExcept(cfg, h, a)
  {
    hide Disjoint;
  }

  lemma MiddleInside(items: map<Addr, Item>, m: map<Key, Value>, n: Node, es: seq<Entry>)
    requires n.Leaf? && Exact(items, m, n) && Gathered(items, n, |n.blocks|, es) && |es| >= 2
    ensures n.lo < es[|es| / 2].key < n.hi
  {
    EntriesInside(items, m, n, es);
    assert es[0].key < es[|es| / 2].key;
  }

  lemma EntriesInside(items: map<Addr, Item>, m: map<Key, Value>, n: Node, es: seq<Entry>)
    requires n.Leaf? && Exact(items, m, n) && Gathered(items, n, |n.blocks|, es)
    ensures forall j :: 0 <= j < |es| ==> n.Covers(es[j].key)
  {
    forall j | 0 <= j < |es|
      ensures n.Covers(es[j].key)
    {
      assert FromBlock(items, n, |n.blocks|, es[j]);
      var i: nat :| i < |n.blocks| && Holds(items, n, i, es[j].key) && n.blocks[i] == es[j].block;
      assert BlockOk(items, m, n, i);
    }
  }

  lemma FrozenLeaf(cfg: Config, h0: Memory, m: map<Key, Value>, a: Addr, n: Node)
    requires TreeInv(cfg, h0, m, NoSplit) && a in h0.nodes && h0.nodes[a].Leaf?
    requires n == WithLocks(Relock(h0.nodes[a], 1), cfg.Bf(), true)
    requires LoadsExcept(cfg, h0, a) && UnlockedFrom(h0, 0) && BlocksUnlocked(h0)
    ensures LeafShape(cfg, n) && n.lock == 1 && Used(n.blocks) == Used(h0.nodes[a].blocks)
    ensures n.lo == h0.nodes[a].lo && n.hi == h0.nodes[a].hi
    ensures forall i :: 0 <= i < |n.blocks| ==> n.blocks[i].locked
    ensures var h := Put(h0, a, n); LoadsExcept(cfg, h, a) && UnlockedExcept(h, a) && BlocksUnlockedExcept(h, a)
  {
    assert Shape(cfg, h0.nodes[a]);
    UsedSame(h0.nodes[a].blocks, n.blocks);
  }

  lemma Restored(cfg: Config, h0: Memory, m: map<Key, Value>, h: Memory, a: Addr)
    requires TreeInv(cfg, h0, m, NoSplit) && a in h0.nodes && h0.nodes[a].Leaf?
    requires LoadsExcept(cfg, h0, a) && UnlockedFrom(h0, 0) && BlocksUnlocked(h0)
    requires h == Put(h0, a, Relock(WithLocks(WithLocks(Relock(h0.nodes[a], 1), cfg.Bf(), true), cfg.Bf(), false), 0))
    requires Used(h0.nodes[a].blocks) <= cfg.Bf() / 2
    ensures Loads(cfg, h) && UnlockedFrom(h, 0) && BlocksUnlocked(h) && h == h0
  {
    LeafHasShape(cfg, h0, m, a);
    hide TreeInv, Used;
    var l := h.nodes[a];
    RelockedBlocks(h0.nodes[a], cfg.Bf(), l);
    assert l.blocks == h0.nodes[a].blocks;
    assert l == h0.nodes[a];
    assert h.nodes == h0.nodes;
  }

  lemma RelockedBlocks(n: Node, size: nat, l: Node)
    requires n.Leaf? && |n.blocks| == size
    requires l == Relock(WithLocks(WithLocks(Relock(n, 1), size, true), size, false), 0)
    ensures l.Leaf? && l.lock == 0 && |l.blocks| == size
    ensures forall i :: 0 <= i < size ==> l.blocks[i] == n.blocks[i].(locked := false)
    ensures l.lo == n.lo && l.hi == n.hi
  {
  }

  lemma AllUnlockedAbove(h1: Memory, h2: Memory, a: Addr, l: Node, d: Addr, r: Node)
    requires UnlockedExcept(h1, a) && a in h1.nodes && l.Leaf? && r.Leaf?
    requires h2 == Put(Put(h1, d, r), a, l)
    ensures UnlockedFrom(h2, 1)
  {
  }

  lemma SplitDone(cfg: Config, h1: Memory, h3: Memory, h4: Memory, a: Addr, l: Node, d: Addr, r: Node)
    requires cfg.Bf() >= 4 && a in h1.nodes && d !in h1.nodes && HalvedLeaf(cfg, h1.nodes[a], l, r)
    requires LoadsExcept(cfg, h1, a) && UnlockedExcept(h1, a) && BlocksUnlockedExcept(h1, a)
    requires InnerWork(Put(Put(h1, d, r), a, l), h3)
    requires a in h3.nodes && h4 == Put(h3, a, Relock(h3.nodes[a], 0))
    ensures Loads(cfg, h4) && UnlockedFrom(h4, 0) && BlocksUnlocked(h4) && h4.items == h1.items
  {
    var h2 := Put(Put(h1, d, r), a, l);
    forall b | b in h4.nodes
      ensures h4.nodes[b].lock == 0
      ensures h4.nodes[b].Leaf? ==> b in h2.nodes && h4.nodes[b] == Relock(h2.nodes[b], 0)
    {
      assert b in h2.nodes ==> InnerWorkAt(h2, h3, b);
    }
    forall b | b in h4.nodes && h4.nodes[b].Leaf?
      ensures Used(h4.nodes[b].blocks) <= cfg.Cap()
    {
      assert h4.nodes[b].blocks == h2.nodes[b].blocks;
    }
  }

  // ---- Candidates of a fingerprint --------------------------------------------------------------------

  datatype Cand = Cand(index: nat, item: Item)

  ghost predicate SomeLocked(n: Node)
    requires n.Leaf?
  {
    exists j :: 0 <= j < |n.blocks| && n.blocks[j].locked
  }

  ghost predicate CandOk(items: map<Addr, Item>, n: Node, fp: nat, upto: nat, c: Cand)
    requires n.Leaf?
  {
    && c.index < upto <= |n.blocks| && Holds(items, n, c.index, c.item.key)
    && n.blocks[c.index].fp == fp && items[n.blocks[c.index].addr] == c.item
  }

  ghost predicate CandFor(cands: seq<Cand>, i: nat) {
    exists j :: 0 <= j < |cands| && cands[j].index == i
  }

  /** The candidates are the used blocks with the fingerprint among the first `upto`, in order. */
  ghost predicate AllCands(items: map<Addr, Item>, n: Node, fp: nat, upto: nat, cands: seq<Cand>)
    requires n.Leaf?
  {
    && upto <= |n.blocks|
    && (forall j :: 0 <= j < |cands| ==> CandOk(items, n, fp, upto, cands[j]))
    && (forall i, j :: 0 <= i < j < |cands| ==> cands[i].index < cands[j].index)
    && (forall i :: 0 <= i < upto && !n.blocks[i].free && n.blocks[i].fp == fp ==> CandFor(cands, i))
  }

  lemma MoreCands(items: map<Addr, Item>, n: Node, fp: nat, i: nat, cs: seq<Cand>, ds: seq<Cand>)
    requires n.Leaf? && i < |n.blocks| && AllCands(items, n, fp, i, cs)
    requires if !n.blocks[i].free && n.blocks[i].fp == fp
             then n.blocks[i].addr in items && ds == cs + [Cand(i, items[n.blocks[i].addr])]
             else ds == cs
    ensures AllCands(items, n, fp, i + 1, ds)
  {
    forall j | 0 <= j < |ds|
      ensures CandOk(items, n, fp, i + 1, ds[j])
    {
      if j < |cs| {
        assert CandOk(items, n, fp, i, cs[j]);
      }
    }
    assert forall j :: 0 <= j < |cs| ==> CandOk(items, n, fp, i, cs[j]) && cs[j].index < i;
    forall x | 0 <= x < i + 1 && !n.blocks[x].free && n.blocks[x].fp == fp
      ensures CandFor(ds, x)
    {
      if x < i {
        assert CandFor(cs, x);
        var j :| 0 <= j < |cs| && cs[j].index == x;
        assert ds[j].index == x;
      } else {
        assert ds[|cs|].index == x;
      }
    }
  }

  lemma CandEntry(items: map<Addr, Item>, m: map<Key, Value>, n: Node, fp: nat, cands: seq<Cand>, i: nat)
    requires n.Leaf? && Sound(items, m, n) && AllCands(items, n, fp, |n.blocks|, cands) && i < |cands|
    ensures cands[i].index < |n.blocks| && Holds(items, n, cands[i].index, cands[i].item.key)
    ensures cands[i].item.key in m && m[cands[i].item.key] == cands[i].item.value
  {
    assert CandOk(items, n, fp, |n.blocks|, cands[i]);
    assert BlockOk(items, m, n, cands[i].index);
  }

  lemma OneCand(items: map<Addr, Item>, n: Node, fp: nat, cands: seq<Cand>, key: Key)
    requires n.Leaf? && Distinct(items, n) && AllCands(items, n, fp, |n.blocks|, cands)
    ensures forall i, j :: 0 <= i < j < |cands| && cands[i].item.key == key ==> cands[j].item.key != key
  {
    forall i, j | 0 <= i < j < |cands| && cands[i].item.key == key
      ensures cands[j].item.key != key
    {
      assert CandOk(items, n, fp, |n.blocks|, cands[i]);
      assert CandOk(items, n, fp, |n.blocks|, cands[j]);
    }
  }

  /** Looking at the candidates of the fingerprint of a key finds it exactly when a scan of all
      items of the leaf would, that is, when the abstract map has it. */
  lemma CandsFind(items: map<Addr, Item>, m: map<Key, Value>, n: Node, key: Key, cands: seq<Cand>)
    requires n.Leaf? && Exact(items, m, n) && n.Covers(key) && AllCands(items, n, Fp(key), |n.blocks|, cands)
    ensures (exists j :: 0 <= j < |cands| && cands[j].item.key == key) <==> key in m
    ensures Present(items, n, key) <==> key in m
  {
    if key in m {
      assert Present(items, n, key);
      var i: nat :| Holds(items, n, i, key);
      assert BlockOk(items, m, n, i);
      assert CandFor(cands, i);
      var j :| 0 <= j < |cands| && cands[j].index == i;
      assert CandOk(items, n, Fp(key), |n.blocks|, cands[j]);
    }
    forall j | 0 <= j < |cands| && cands[j].item.key == key
      ensures key in m
    {
      CandEntry(items, m, n, Fp(key), cands, j);
    }
    forall i: nat | Holds(items, n, i, key)
      ensures key in m
    {
      assert BlockOk(items, m, n, i);
    }
  }

  lemma NewItemKeepsInv(cfg: Config, h: Memory, m: map<Key, Value>, a: Addr, it: Item)
    requires TreeInv(cfg, h, m, NoSplit) && a !in h.items
    ensures var g := h.(items := h.items[a := it]);
      TreeInv(cfg, g, m, NoSplit) && ReaderSafe(cfg, g, m) && Evolves(h, g)
  {
    var g := h.(items := h.items[a := it]);
    ItemsKeepStructure(cfg, h, g);
    forall b | b in g.nodes
      ensures Exact(g.items, m, g.nodes[b])
    {
      NewItemKeepsExact(h.items, m, h.nodes[b], a, it);
    }
    InvReaderSafe(cfg, g, m, NoSplit);
  }

  lemma ItemsKeepStructure(cfg: Config, h: Memory, g: Memory)
    requires Structure(cfg, h, NoSplit) && g == h.(items := g.items)
    ensures Structure(cfg, g, NoSplit)
  {
    forall b, i | b in g.nodes && g.nodes[b].Inner? && 0 <= i <= g.nodes[b].last
      ensures LinkOk(g, NoSplit, g.nodes[b], i)
    {
      assert LinkOk(h, NoSplit, h.nodes[b], i);
    }
  }

  // ---- Operations, on memory -----------------------------------------------------------------------------

  /** A cached node image, or nothing. */
  datatype CacheSlot = Miss | Hit(addr: Addr, node: Node)

  /** The image was read at some moment of the trace, unlocked. */
  ghost predicate CachedImage(t: seq<Snapshot>, c: CacheSlot) {
    && c.Hit? && c.node.Inner? && c.node.lock == 0
    && exists j :: 0 <= j < |t| && c.addr in t[j].mem.nodes && t[j].mem.nodes[c.addr] == c.node
  }

  /** It was, and covers the key. */
  ghost predicate CachedEarlier(t: seq<Snapshot>, c: CacheSlot, key: Key) {
    CachedImage(t, c) && c.node.Covers(key)
  }

  /** A cache holds images of inner nodes read at moments of the trace. */
  ghost predicate CacheOk(t: seq<Snapshot>, cache: seq<CacheSlot>) {
    forall i :: 0 <= i < |cache| ==> CachedImage(t, cache[i])
  }

  lemma CacheStays(t: seq<Snapshot>, u: seq<Snapshot>, cache: seq<CacheSlot>)
    requires CacheOk(t, cache) && t <= u
    ensures CacheOk(u, cache)
  {
    forall i | 0 <= i < |cache|
      ensures CachedImage(u, cache[i])
    {
      assert CachedImage(t, cache[i]);
      var c := cache[i];
      var j :| 0 <= j < |t| && c.addr in t[j].mem.nodes && t[j].mem.nodes[c.addr] == c.node;
      assert u[j] == t[j];
    }
  }

  lemma StillCached(t: seq<Snapshot>, u: seq<Snapshot>, m: map<Key, Value>, c: CacheSlot, key: Key)
    requires Extends(t, u, m)
    ensures c.Hit? && CachedEarlier(t, c, key) ==> CachedEarlier(u, c, key)
  {
  }

  lemma {:induction false} TraceAt(cfg: Config, t: seq<Snapshot>, i: nat)
    requires TraceOk(cfg, t) && i < |t|
    ensures ReaderSafe(cfg, t[i].mem, t[i].model)
  {
    if i < |t| - 1 {
      TraceAt(cfg, t[..|t| - 1], i);
    }
  }

  lemma {:induction false} TraceKeepsItems(cfg: Config, t: seq<Snapshot>, i: nat)
    requires TraceOk(cfg, t) && i + 1 < |t|
    ensures ItemsKept(t[i].mem, t[i + 1].mem)
  {
    hide ReaderSafe, Evolves;
    if i + 2 < |t| {
      TraceKeepsItems(cfg, t[..|t| - 1], i);
    }
  }

  /** The item was not freed between two moments. */
  ghost predicate NotFreed(t: seq<Snapshot>, i: nat, j: nat, a: Addr) {
    forall x :: i <= x <= j && x < |t| ==> a in t[x].mem.items
  }

  lemma {:induction false} ItemStays(cfg: Config, t: seq<Snapshot>, i: nat, j: nat, a: Addr)
    requires TraceOk(cfg, t) && i <= j < |t| && NotFreed(t, i, j, a)
    ensures a in t[i].mem.items && a in t[j].mem.items && t[j].mem.items[a] == t[i].mem.items[a]
  {
    hide TraceOk;
    if i < j {
      ItemStays(cfg, t, i, j - 1, a);
      TraceKeepsItems(cfg, t, j - 1);
    }
  }

  lemma EvolvesTransitive(f: Memory, g: Memory, h: Memory)
    requires Evolves(f, g) && Evolves(g, h)
    ensures Evolves(f, h)
  {
    forall a | a in f.nodes
      ensures NodeGrows(f, h, a)
    {
      assert NodeGrows(f, g, a);
      assert NodeGrows(g, h, a);
    }
  }

  lemma {:induction false} TraceEvolves(cfg: Config, t: seq<Snapshot>, i: nat, j: nat)
    requires TraceOk(cfg, t) && i <= j < |t|
    ensures Evolves(t[i].mem, t[j].mem)
  {
    if j < |t| - 1 {
      TraceEvolves(cfg, t[..|t| - 1], i, j);
    } else if i < j {
      TraceEvolves(cfg, t[..|t| - 1], i, j - 1);
      EvolvesTransitive(t[i].mem, t[j - 1].mem, t[j].mem);
    }
  }

  lemma TraceLast(cfg: Config, t: seq<Snapshot>)
    requires TraceOk(cfg, t) && t != []
    ensures ReaderSafe(cfg, t[|t| - 1].mem, t[|t| - 1].model)
  {
  }

  /** The children named in a node image of the past are still there, one level below and at the
      same lower fence. */
  lemma CachedLinks(cfg: Config, t: seq<Snapshot>, c: CacheSlot, key: Key)
    requires TraceOk(cfg, t) && t != [] && c.Hit? && CachedEarlier(t, c, key)
    ensures InnerShape(cfg, c.node) && OwnWeakLinks(t[|t| - 1].mem, c.node)
  {
    var j :| 0 <= j < |t| && c.addr in t[j].mem.nodes && t[j].mem.nodes[c.addr] == c.node;
    TraceAt(cfg, t, j);
    TraceEvolves(cfg, t, j, |t| - 1);
    var n, h := c.node, t[|t| - 1].mem;
    assert Shape(cfg, n);
    forall i | 0 <= i <= n.last
      ensures WeakLinkOk(h, n, i)
    {
      assert WeakLinkOk(t[j].mem, t[j].mem.nodes[c.addr], i);
      assert NodeGrows(t[j].mem, h, n.kids[i]);
    }
  }

  lemma CachedIsInner(t: seq<Snapshot>, c: CacheSlot)
    requires CachedImage(t, c)
    ensures c.Hit? && c.node.Inner? && c.node.lock == 0
  {
  }

  lemma CachedAboveLeaf(cfg: Config, t: seq<Snapshot>, c: CacheSlot, key: Key)
    requires TraceOk(cfg, t) && t != [] && CachedEarlier(t, c, key)
    ensures c.Hit? && c.node.Inner? && c.node.height >= 1
  {
    hide TraceOk;
    CachedLinks(cfg, t, c, key);
  }

  /** A cached node is still there, on its level and at its lower fence. */
  lemma CachedStays(cfg: Config, t: seq<Snapshot>, c: CacheSlot)
    requires TraceOk(cfg, t) && t != [] && CachedImage(t, c)
    ensures var h := t[|t| - 1].mem;
      && c.Hit? && c.addr in h.nodes && h.nodes[c.addr].Level() == c.node.Level() && h.nodes[c.addr].lo == c.node.lo
      && Shape(cfg, h.nodes[c.addr])
  {
    hide TraceOk;
    var j :| 0 <= j < |t| && c.addr in t[j].mem.nodes && t[j].mem.nodes[c.addr] == c.node;
    TraceEvolves(cfg, t, j, |t| - 1);
    assert NodeGrows(t[j].mem, t[|t| - 1].mem, c.addr);
    TraceAt(cfg, t, |t| - 1);
  }

  /** A node that covers the pending separator, locked, is ready to take it. */
  lemma Taken(cfg: Config, h: Memory, m: map<Key, Value>, p: Pending, a: Addr)
    requires TreeInv(cfg, h, m, p) && p.Split? && a in h.nodes && h.nodes[a].Level() == p.level
      && h.nodes[a].Covers(p.sep)
    ensures var n := Relock(h.nodes[a], 1);
      && n.Inner? && n.height == p.level && InnerShape(cfg, n) && n.last < |n.keys|
      && n.Covers(p.sep) && p.level <= RootLevel(h)
      && p.sep !in n.keys[..n.last + 1]
  {
    assert Shape(cfg, h.nodes[a]);
    PendingParent(cfg, h, p, a);
  }

  lemma EmptyTree(cfg: Config, root: Addr, leaf: Node)
    requires cfg.Ok() && leaf == Leaf(0, 0, cfg.maxKey, seq(cfg.Bf(), _ => Block(0, 0, true, false)))
    ensures var h := Memory(map[root := leaf], map[], root);
      && TreeInv(cfg, h, map[], NoSplit) && Loads(cfg, h) && UnlockedFrom(h, 0) && BlocksUnlocked(h)
      && ReaderSafe(cfg, h, map[]) && TraceOk(cfg, [Snapshot(h, map[])])
  {
    var h := Memory(map[root := leaf], map[], root);
    UsedPrefix(leaf.blocks, 0);
    InvReaderSafe(cfg, h, map[], NoSplit);
  }

  lemma LeavesHaveLevelZero(cfg: Config, h: Memory, m: map<Key, Value>)
    requires TreeInv(cfg, h, m, NoSplit)
    ensures h.root in h.nodes
    ensures forall a :: a in h.nodes && h.nodes[a].Level() == 0 ==> h.nodes[a].Leaf?
  {
    assert forall a :: a in h.nodes ==> Shape(cfg, h.nodes[a]);
  }

  /** No used block points to the item. */
  ghost predicate Private(h: Memory, item: Addr) {
    forall a :: a in h.nodes ==> Unreferenced(h.nodes[a], item)
  }

  lemma FreshIsPrivate(h: Memory, m: map<Key, Value>, item: Addr)
    requires AllExact(h, m) && item !in h.items
    ensures Private(h, item)
  {
    forall a | a in h.nodes
      ensures Unreferenced(h.nodes[a], item)
    {
      var n := h.nodes[a];
      if n.Leaf? {
        forall i | 0 <= i < |n.blocks| && !n.blocks[i].free
          ensures n.blocks[i].addr != item
        {
          assert BlockOk(h.items, m, n, i);
        }
      }
    }
  }

  lemma SamePrivate(g: Memory, h: Memory, item: Addr)
    requires Private(g, item) && g.nodes == h.nodes
    ensures Private(h, item)
  {
  }

  lemma SettledLeaf(h: Memory, a: Addr)
    requires BlocksUnlocked(h) && a in h.nodes && h.nodes[a].Leaf?
    ensures !SomeLocked(h.nodes[a])
  {
  }

  /** The trace grew by states with abstract map `m` or `n`. */
  ghost predicate Between(t: seq<Snapshot>, u: seq<Snapshot>, m: map<Key, Value>, n: map<Key, Value>) {
    t <= u && forall i :: |t| <= i < |u| ==> u[i].model == m || u[i].model == n
  }

  lemma ThenBetween(t: seq<Snapshot>, u: seq<Snapshot>, v: seq<Snapshot>, m: map<Key, Value>, n: map<Key, Value>)
    requires Extends(t, u, m) && Between(u, v, m, n)
    ensures Between(t, v, m, n)
  {
  }

  lemma ThenExtends(t: seq<Snapshot>, u: seq<Snapshot>, v: seq<Snapshot>, m: map<Key, Value>, n: map<Key, Value>)
    requires Between(t, u, m, n) && Extends(u, v, n)
    ensures Between(t, v, m, n)
  {
  }

  lemma ExtendsIsBetween(t: seq<Snapshot>, u: seq<Snapshot>, m: map<Key, Value>)
    requires Extends(t, u, m)
    ensures Between(t, u, m, m)
  {
  }

  lemma ExtendsIsBetween0(t: seq<Snapshot>, m: map<Key, Value>)
    ensures Between(t, t, m, m)
  {
  }

  lemma OneMoreBetween(t: seq<Snapshot>, m: map<Key, Value>, s: Snapshot)
    ensures Between(t, t + [s], m, s.model)
  {
  }

  /** A leaf with a free block for the key: no leaf for it is full. */
  lemma RoomAt(cfg: Config, h: Memory, m: map<Key, Value>, a: Addr, key: Key)
    requires TreeInv(cfg, h, m, NoSplit) && a in h.nodes && h.nodes[a].Leaf? && h.nodes[a].Covers(key)
    ensures Used(h.nodes[a].blocks) < |h.nodes[a].blocks| ==> !LeafFull(cfg, h, key)
  {
    assert Shape(cfg, h.nodes[a]);
    if Used(h.nodes[a].blocks) < |h.nodes[a].blocks| {
      forall b | b in h.nodes && h.nodes[b].Leaf? && h.nodes[b].Covers(key)
        ensures Used(h.nodes[b].blocks) != cfg.Bf()
      {
        OneLeaf(h, a, b, key);
      }
    }
  }

  lemma FullAt(cfg: Config, h: Memory, m: map<Key, Value>, a: Addr, key: Key)
    requires TreeInv(cfg, h, m, NoSplit) && a in h.nodes && h.nodes[a].Leaf? && h.nodes[a].Covers(key)
    requires Used(h.nodes[a].blocks) >= |h.nodes[a].blocks|
    ensures LeafFull(cfg, h, key)
  {
    assert Shape(cfg, h.nodes[a]);
  }

  /** The keys of `ks` that the first `j` blocks hold. */
  ghost function HeldKeys(items: map<Addr, Item>, n: Node, j: nat, ks: set<Key>): set<Key>
    requires n.Leaf? && j <= |n.blocks|
  {
    set k | k in ks && HeldBefore(items, n, j, k)
  }

  ghost predicate HeldBefore(items: map<Addr, Item>, n: Node, j: nat, k: Key) {
    exists i: nat :: i < j && Holds(items, n, i, k)
  }

  lemma {:induction false} HeldKeysFit(items: map<Addr, Item>, n: Node, j: nat, ks: set<Key>)
    requires n.Leaf? && j <= |n.blocks|
    ensures |HeldKeys(items, n, j, ks)| <= Used(n.blocks[..j])
  {
    var held := HeldKeys(items, n, j, ks);
    if j == 0 {
      assert held == {};
    } else {
      HeldKeysFit(items, n, j - 1, ks);
      assert n.blocks[..j][..j - 1] == n.blocks[..j - 1];
      var before := HeldKeys(items, n, j - 1, ks);
      var b := n.blocks[j - 1];
      if !b.free && b.addr in items {
        var k := items[b.addr].key;
        forall x | x in held
          ensures x in before + {k}
        {
          OneBlockMore(items, n, j, x);
        }
        Smaller(held, before + {k});
      } else {
        forall x | x in held
          ensures x in before
        {
          OneBlockMore(items, n, j, x);
        }
        Smaller(held, before);
      }
    }
  }

  lemma OneBlockMore(items: map<Addr, Item>, n: Node, j: nat, k: Key)
    requires j > 0 && HeldBefore(items, n, j, k)
    ensures HeldBefore(items, n, j - 1, k) || Holds(items, n, j - 1, k)
  {
    var i: nat :| i < j && Holds(items, n, i, k);
  }

  /** A leaf uses at least as many blocks as the map has keys in its fence. */
  lemma BlocksForKeys(items: map<Addr, Item>, m: map<Key, Value>, n: Node, ks: set<Key>)
    requires n.Leaf? && Exact(items, m, n) && forall k :: k in ks ==> k in m && n.Covers(k)
    ensures |ks| <= Used(n.blocks)
  {
    HeldKeysFit(items, n, |n.blocks|, ks);
    assert n.blocks[..|n.blocks|] == n.blocks;
    forall k | k in ks
      ensures k in HeldKeys(items, n, |n.blocks|, ks)
    {
      assert Present(items, n, k);
      var i: nat :| Holds(items, n, i, k);
      assert HeldBefore(items, n, |n.blocks|, k);
    }
    Smaller(ks, HeldKeys(items, n, |n.blocks|, ks));
  }

  /** And no more than the map has keys. */
  lemma {:induction false} KeysForBlocks(items: map<Addr, Item>, m: map<Key, Value>, n: Node, j: nat, rest: set<Key>)
    requires n.Leaf? && Exact(items, m, n) && j <= |n.blocks| && rest <= m.Keys
    requires forall i: nat, k :: Holds(items, n, i, k) && i < j ==> k !in rest
    ensures Used(n.blocks[..j]) + |rest| <= |m|
  {
    if j == 0 {
      Smaller(rest, m.Keys);
    } else {
      assert n.blocks[..j][..j - 1] == n.blocks[..j - 1];
      if n.blocks[j - 1].free {
        KeysForBlocks(items, m, n, j - 1, rest);
      } else {
        assert BlockOk(items, m, n, j - 1);
        var k := items[n.blocks[j - 1].addr].key;
        assert Holds(items, n, j - 1, k);
        KeysForBlocks(items, m, n, j - 1, rest + {k});
      }
    }
  }

  /** A tree with fewer keys than a leaf has blocks has room for every key. */
  lemma FewKeysLeaveRoom(cfg: Config, h: Memory, m: map<Key, Value>, key: Key)
    requires TreeInv(cfg, h, m, NoSplit) && |m| < cfg.Bf()
    ensures !LeafFull(cfg, h, key)
  {
    forall a | a in h.nodes && h.nodes[a].Leaf?
      ensures Used(h.nodes[a].blocks) < cfg.Bf()
    {
      var n := h.nodes[a];
      assert Exact(h.items, m, n);
      hide TreeInv, Exact;
      KeysForBlocks(h.items, m, n, |n.blocks|, {});
      assert n.blocks[..|n.blocks|] == n.blocks;
    }
  }

  lemma ChildBelow(cfg: Config, h: Memory, a: Addr)
    requires Structure(cfg, h, NoSplit) && a in h.nodes
    ensures h.nodes[a].Inner? ==> exists c :: c in h.nodes && h.nodes[c].Level() < h.nodes[a].Level()
  {
    var n := h.nodes[a];
    assert Shape(cfg, n);
    if n.Inner? {
      assert LinkOk(h, NoSplit, n, 0);
    }
  }

  /** A tree of one node with as many keys as its leaf has blocks has no room. */
  lemma OneFullLeaf(cfg: Config, h: Memory, m: map<Key, Value>, key: Key)
    requires TreeInv(cfg, h, m, NoSplit) && h.nodes.Keys == {h.root} && |m| >= cfg.Bf() && key < cfg.maxKey
    ensures LeafFull(cfg, h, key)
  {
    var n := h.nodes[h.root];
    assert Shape(cfg, n) && Exact(h.items, m, n);
    ChildBelow(cfg, h, h.root);
    hide Exact;
    BlocksForKeys(h.items, m, n, m.Keys);
  }

  lemma StuckInsert(cfg: Config, h: Memory, key: Key)
    requires cfg.Ok() && Loads(cfg, h) && LeafFull(cfg, h, key)
    ensures cfg.watermark >= cfg.Bf()
  {
    BfFacts(cfg);
  }

  lemma BlockKeepsStructure(cfg: Config, h: Memory, a: Addr, i: nat, key: Key, item: Addr)
    requires Structure(cfg, h, NoSplit) && a in h.nodes && h.nodes[a].Leaf? && i < |h.nodes[a].blocks|
    ensures Structure(cfg, Put(h, a, WithBlock(h.nodes[a], i, key, item)), NoSplit)
  {
    assert Shape(cfg, h.nodes[a]);
    PutStructure(cfg, h, NoSplit, a, WithBlock(h.nodes[a], i, key, item));
  }

  /** The abstract map gets `key`; the leaf at `a`, now `l`, has it, and the others do not cover it. */
  lemma OthersExact(h: Memory, m: map<Key, Value>, a: Addr, l: Node, key: Key, value: Value)
    requires Disjoint(h) && AllExact(h, m) && a in h.nodes && h.nodes[a].Leaf? && h.nodes[a].Covers(key)
    requires Exact(h.items, m[key := value], l)
    ensures AllExact(Put(h, a, l), m[key := value])
  {
    var g := Put(h, a, l);
    forall b | b in g.nodes
      ensures Exact(g.items, m[key := value], g.nodes[b])
    {
      if b != a && h.nodes[b].Leaf? {
        assert Apart(h.nodes[a], h.nodes[b]);
        OtherLeafExact(h.items, m, h.nodes[b], key, value);
      }
    }
  }

  lemma UpdateKeepsRest(cfg: Config, h: Memory, a: Addr, i: nat, key: Key, item: Addr)
    requires a in h.nodes && h.nodes[a].Leaf? && i < |h.nodes[a].blocks| && !h.nodes[a].blocks[i].free
    requires Loads(cfg, h) && UnlockedFrom(h, 0) && BlocksUnlocked(h)
    ensures var g := Put(h, a, WithBlock(h.nodes[a], i, key, item));
      Loads(cfg, g) && UnlockedFrom(g, 0) && BlocksUnlocked(g)
  {
    UsedUpdate(h.nodes[a].blocks, i, WithBlock(h.nodes[a], i, key, item).blocks[i]);
  }

  lemma ItemsKeepRest(cfg: Config, g: Memory, h: Memory)
    requires g.nodes == h.nodes && Loads(cfg, g) && UnlockedFrom(g, 0) && BlocksUnlocked(g)
    ensures Loads(cfg, h) && UnlockedFrom(h, 0) && BlocksUnlocked(h)
  {
  }

  lemma UpdateKeepsInv(cfg: Config, h: Memory, m: map<Key, Value>, a: Addr, i: nat, item: Addr)
    requires TreeInv(cfg, h, m, NoSplit) && a in h.nodes && h.nodes[a].Leaf? && item in h.items
    requires h.items[item].key < cfg.maxKey && h.nodes[a].Covers(h.items[item].key)
    requires Holds(h.items, h.nodes[a], i, h.items[item].key)
    requires Loads(cfg, h) && UnlockedFrom(h, 0) && BlocksUnlocked(h)
    ensures var Item(key, value) := h.items[item]; var g := Put(h, a, WithBlock(h.nodes[a], i, key, item));
      && TreeInv(cfg, g, m[key := value], NoSplit) && ReaderSafe(cfg, g, m[key := value]) && Evolves(h, g)
      && Loads(cfg, g) && UnlockedFrom(g, 0) && BlocksUnlocked(g)
  {
    var Item(key, value) := h.items[item];
    var l := WithBlock(h.nodes[a], i, key, item);
    BlockKeepsStructure(cfg, h, a, i, key, item);
    UpdateExact(h.items, m, h.nodes[a], i, item);
    OthersExact(h, m, a, l, key, value);
    UpdateKeepsRest(cfg, h, a, i, key, item);
    InvReaderSafe(cfg, Put(h, a, l), m[key := value], NoSplit);
  }

  lemma InsertKeepsInv(cfg: Config, h: Memory, m: map<Key, Value>, a: Addr, i: nat, item: Addr)
    requires TreeInv(cfg, h, m, NoSplit) && a in h.nodes && h.nodes[a].Leaf? && item in h.items
    requires h.items[item].key < cfg.maxKey && h.nodes[a].Covers(h.items[item].key) && h.items[item].key !in m
    requires i < |h.nodes[a].blocks| && h.nodes[a].blocks[i].free
    requires Loads(cfg, h) && UnlockedFrom(h, 0) && BlocksUnlocked(h)
    ensures var Item(key, value) := h.items[item]; var g := Put(h, a, WithBlock(h.nodes[a], i, key, item));
      && TreeInv(cfg, g, m[key := value], NoSplit) && ReaderSafe(cfg, g, m[key := value]) && Evolves(h, g)
      && LoadsExcept(cfg, g, a) && UnlockedFrom(g, 0) && BlocksUnlocked(g)
  {
    var Item(key, value) := h.items[item];
    var l := WithBlock(h.nodes[a], i, key, item);
    InsertedInv(cfg, h, m, a, i, item);
    hide TreeInv, Exact;
    InvReaderSafe(cfg, Put(h, a, l), m[key := value], NoSplit);
    hide ReaderSafe;
    assert Evolves(h, Put(h, a, l));
  }

  lemma InsertedInv(cfg: Config, h: Memory, m: map<Key, Value>, a: Addr, i: nat, item: Addr)
    requires TreeInv(cfg, h, m, NoSplit) && a in h.nodes && h.nodes[a].Leaf? && item in h.items
    requires h.items[item].key < cfg.maxKey && h.nodes[a].Covers(h.items[item].key) && h.items[item].key !in m
    requires i < |h.nodes[a].blocks| && h.nodes[a].blocks[i].free
    ensures var Item(key, value) := h.items[item];
      TreeInv(cfg, Put(h, a, WithBlock(h.nodes[a], i, key, item)), m[key := value], NoSplit)
  {
    var Item(key, value) := h.items[item];
    assert Exact(h.items, m, h.nodes[a]) && Disjoint(h);
    hide Structure, Exact, Disjoint;
    BlockKeepsStructure(cfg, h, a, i, key, item);
    InsertExact(h.items, m, h.nodes[a], i, item);
    OthersExact(h, m, a, WithBlock(h.nodes[a], i, key, item), key, value);
  }

  lemma LightLeaf(cfg: Config, h: Memory, a: Addr)
    requires LoadsExcept(cfg, h, a) && a in h.nodes && h.nodes[a].Leaf? && Used(h.nodes[a].blocks) <= cfg.watermark
    ensures Loads(cfg, h)
  {
  }

  /** After an update no block points to the old item any more. */
  lemma UpdateUnreferences(cfg: Config, h: Memory, m: map<Key, Value>, a: Addr, i: nat, item: Addr)
    requires TreeInv(cfg, h, m, NoSplit) && a in h.nodes && h.nodes[a].Leaf? && item in h.items && Private(h, item)
    requires h.nodes[a].Covers(h.items[item].key) && Holds(h.items, h.nodes[a], i, h.items[item].key)
    ensures Private(Put(h, a, WithBlock(h.nodes[a], i, h.items[item].key, item)), h.nodes[a].blocks[i].addr)
  {
    var key := h.items[item].key;
    var gone := h.nodes[a].blocks[i].addr;
    assert Unreferenced(h.nodes[a], item);
    assert gone != item;
    var g := Put(h, a, WithBlock(h.nodes[a], i, key, item));
    forall b | b in g.nodes
      ensures Unreferenced(g.nodes[b], gone)
    {
      NoOtherReference(h, m, a, i, b, key);
    }
  }

  lemma NoOtherReference(h: Memory, m: map<Key, Value>, a: Addr, i: nat, b: Addr, key: Key)
    requires Disjoint(h) && AllExact(h, m) && a in h.nodes && b in h.nodes && h.nodes[a].Leaf?
    requires h.nodes[a].Covers(key) && Holds(h.items, h.nodes[a], i, key)
    ensures h.nodes[b].Leaf? ==>
      forall j :: 0 <= j < |h.nodes[b].blocks| && !h.nodes[b].blocks[j].free && (b != a || j != i)
                  ==> h.nodes[b].blocks[j].addr != h.nodes[a].blocks[i].addr
  {
    var n := h.nodes[b];
    if n.Leaf? {
      forall j | 0 <= j < |n.blocks| && !n.blocks[j].free && (b != a || j != i)
        ensures n.blocks[j].addr != h.nodes[a].blocks[i].addr
      {
        assert BlockOk(h.items, m, n, j);
        if n.blocks[j].addr == h.nodes[a].blocks[i].addr {
          OneLeaf(h, a, b, key);
          assert Holds(h.items, n, j, key);
        }
      }
    }
  }

  lemma FreedKeepsInv(cfg: Config, h: Memory, m: map<Key, Value>, gone: Addr)
    requires TreeInv(cfg, h, m, NoSplit) && Private(h, gone)
    ensures var g := h.(items := h.items - {gone});
      TreeInv(cfg, g, m, NoSplit) && ReaderSafe(cfg, g, m) && Evolves(h, g)
  {
    var g := h.(items := h.items - {gone});
    ItemsKeepStructure(cfg, h, g);
    forall b | b in g.nodes
      ensures Exact(g.items, m, g.nodes[b])
    {
      FreedItemKeepsExact(h.items, m, h.nodes[b], gone);
    }
    InvReaderSafe(cfg, g, m, NoSplit);
  }
}
