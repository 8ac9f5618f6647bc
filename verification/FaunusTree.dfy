/** The Faunus index as one client runs it: every remote memory operation is one call of a
    primitive, whose precondition is that readers stay safe in the memory it leaves behind. */
module FaunusTree {
  import opened Fresh
  import opened Histories
  import opened Bits
  import opened FaunusNodes
  import opened FaunusRouting
  import opened FaunusStructure
  import opened FaunusContents
  import opened FaunusSteps
  import opened FaunusOutcomes
  import LeafFreeze
  import LeafFence

  datatype FindResult = Found | Locked | NoSuchLevel

  /** The child of an inner node that a search for `key` reads next, in the order of the loop:
      it looks at the leftover key too. */
  method PickChild(n: Node, key: Key) returns (c: Addr)
    requires n.Inner? && n.last < |n.keys| && n.last < |n.kids|
    ensures c == Child(n, key)
  {
    var i := 0;
    while i <= n.last
      invariant 0 <= i <= n.last + 1
      invariant forall j :: 0 <= j < i ==> n.keys[j] <= key
    {
      if key < n.keys[i] {
        RouteIs(n.keys, n.last, key, 0, i);
        return n.kids[i];
      }
      i := i + 1;
    }
    RouteIs(n.keys, n.last, key, 0, n.last);
    return n.kids[n.last];
  }

  /** The node of the level that the children for `key` lead to, from the image of an inner node on. */
  ghost function NodeBelow(nodes: map<Addr, Node>, n: Node, key: Key, level: nat): (a: Addr)
    decreases n.Level()
  {
    if n.Leaf? || n.last >= |n.keys| || n.last >= |n.kids| then 0
    else
      var a := Child(n, key);
      if n.height == level + 1 || a !in nodes || nodes[a].Level() >= n.height then a
      else NodeBelow(nodes, nodes[a], key, level)
  }

  /** The nodes that are read on that way are not locked. */
  ghost predicate ClearBelow(nodes: map<Addr, Node>, n: Node, key: Key, level: nat)
    decreases n.Level()
  {
    n.Inner? && n.last < |n.keys| && n.last < |n.kids| && n.height > level + 1 ==>
      var a := Child(n, key);
      a in nodes && nodes[a].Level() < n.height ==> nodes[a].lock == 0 && ClearBelow(nodes, nodes[a], key, level)
  }

  /** The leaf that a cached node leads to has lost the key to the right. */
  ghost predicate LostBelow(nodes: map<Addr, Node>, cached: CacheSlot, key: Key) {
    && cached.Hit?
    && var a := NodeBelow(nodes, cached.node, key, 0);
    !(a in nodes && nodes[a].Covers(key))
  }

  /** The image of an inner node with one more entry. */
  method EnteredNode(n: Node, key: Key, child: Addr) returns (w: Node)
    requires n.Inner? && n.last + 1 < |n.keys| == |n.kids|
    requires Ascending(n.keys, n.last) && key !in n.keys[..n.last]
    ensures w == WithEntry(n, key, child)
  {
    var keys := new Key[|n.keys|](i requires 0 <= i < |n.keys| => n.keys[i]);
    var kids := new Addr[|n.kids|](i requires 0 <= i < |n.kids| => n.kids[i]);
    assert keys[..] == n.keys && kids[..] == n.kids;
    var index := FindIndex(n.keys, n.last, key);
    EnterEntry(keys, kids, n.last, index, key, child);
    w := n.(last := n.last + 1, keys := keys[..], kids := kids[..]);
  }

  /** Puts `e` into the ordered map `es`, over an entry with the same key. */
  method PutEntry(es: seq<Entry>, e: Entry) returns (r: seq<Entry>, at: nat)
    requires Sorted(es)
    ensures Entered(es, e, r, at)
  {
    at := 0;
    while at < |es| && es[at].key < e.key
      invariant 0 <= at <= |es|
      invariant forall j :: 0 <= j < at ==> es[j].key < e.key
    {
      at := at + 1;
    }
    if at < |es| && es[at].key == e.key {
      r := es[at := e];
    } else {
      r := es[..at] + [e] + es[at..];
      assert at < |es| ==> e.key < es[at].key;
      assert forall j :: at <= j < |es| ==> e.key < es[j].key;
    }
  }

  class FaunusIndex {
    const cfg: Config
    var mem: Memory
    var cache: seq<CacheSlot>
    ghost var model: map<Key, Value>
    ghost var trace: seq<Snapshot>

    /** The trace ends in the current state, every state in it is safe for readers, and the cache
        holds images of inner nodes read at its moments. */
    ghost predicate Traced()
      reads this
    {
      && TraceOk(cfg, trace) && trace != [] && trace[|trace| - 1] == Snapshot(mem, model)
      && CacheOk(trace, cache)
    }

    /** The tree between two operations. */
    ghost predicate Valid()
      reads this
    {
      && Traced() && TreeInv(cfg, mem, model, NoSplit) && Loads(cfg, mem)
      && UnlockedFrom(mem, 0) && BlocksUnlocked(mem)
    }

    // ---- Remote memory operations -----------------------------------------------------------

    method WriteNode(a: Addr, n: Node)
      requires Traced()
      requires ReaderSafe(cfg, Put(mem, a, n), model) && Evolves(mem, Put(mem, a, n))
      modifies `mem, `trace
      ensures Traced() && mem == Put(old(mem), a, n) && trace == old(trace) + [Snapshot(mem, model)]
    {
      hide ReaderSafe, Evolves, TraceOk, CacheOk;
      mem := Put(mem, a, n);
      TraceAppend(cfg, trace, Snapshot(mem, model));
      CacheStays(trace, trace + [Snapshot(mem, model)], cache);
      trace := trace + [Snapshot(mem, model)];
    }

    method CasRoot(expected: Addr, desired: Addr) returns (seen: Addr)
      requires Traced()
      requires mem.root == expected ==>
        ReaderSafe(cfg, mem.(root := desired), model) && Evolves(mem, mem.(root := desired))
      modifies `mem, `trace
      ensures Traced() && seen == old(mem.root)
      ensures mem == if seen == expected then old(mem).(root := desired) else old(mem)
      ensures Extends(old(trace), trace, model)
    {
      hide ReaderSafe, Evolves, TraceOk, CacheOk;
      seen := mem.root;
      if seen == expected {
        mem := mem.(root := desired);
        TraceAppend(cfg, trace, Snapshot(mem, model));
        CacheStays(trace, trace + [Snapshot(mem, model)], cache);
        trace := trace + [Snapshot(mem, model)];
      }
    }

    /** An allocator never hands out memory in use. */
    method Allocate() returns (a: Addr)
      ensures a !in mem.nodes && a !in mem.items
    {
      FreshExists(mem.nodes.Keys + mem.items.Keys);
      a :| a !in mem.nodes.Keys + mem.items.Keys;
    }

    /** Sets the lock word of a node when it is 0. */
    method CasLock(a: Addr, ghost p: Pending) returns (seen: nat)
      requires Traced() && TreeInv(cfg, mem, model, p) && a in mem.nodes
      modifies `mem, `trace
      ensures seen == old(mem.nodes[a].lock)
      ensures mem == if seen == 0 then Put(old(mem), a, Relock(old(mem.nodes[a]), 1)) else old(mem)
      ensures Traced() && TreeInv(cfg, mem, model, p)
      ensures Extends(old(trace), trace, model)
    {
      seen := mem.nodes[a].lock;
      if seen == 0 {
        StoreLock(a, 1, p);
      }
    }

    /** Fetch-and-add of -1 on the lock word of a node. */
    method ReleaseLock(a: Addr, ghost p: Pending)
      requires Traced() && TreeInv(cfg, mem, model, p) && a in mem.nodes
      modifies `mem, `trace
      ensures mem == Put(old(mem), a, Relock(old(mem.nodes[a]), Decremented(old(mem.nodes[a].lock))))
      ensures Traced() && TreeInv(cfg, mem, model, p)
      ensures Extends(old(trace), trace, model)
    {
      StoreLock(a, Decremented(mem.nodes[a].lock), p);
    }

    /** A lock word changes and nothing else does. */
    method StoreLock(a: Addr, lock: nat, ghost p: Pending)
      requires Traced() && TreeInv(cfg, mem, model, p) && a in mem.nodes
      modifies `mem, `trace
      ensures mem == Put(old(mem), a, Relock(old(mem.nodes[a]), lock))
      ensures Traced() && TreeInv(cfg, mem, model, p)
      ensures Extends(old(trace), trace, model)
    {
      hide TreeInv, ReaderSafe, Evolves, TraceOk, CacheOk;
      var n := Relock(mem.nodes[a], lock);
      LockKeepsInv(cfg, mem, model, p, a, lock);
      WriteNode(a, n);
    }

    // ---- Search -------------------------------------------------------------------------------

    /** Descends from the root to the node of level `level` responsible for `key`. */
    method FindNode(key: Key, level: nat, fromSmo: bool, ghost p: Pending) returns (res: FindResult, a: Addr)
      requires TreeInv(cfg, mem, model, p) && key < cfg.maxKey
      requires p.Split? ==> p.level <= level
      ensures res == Locked ==> !UnlockedFrom(mem, if fromSmo then level else 0)
      ensures mem.root in mem.nodes && var n := mem.nodes[mem.root];
        res == Locked <==> (n.lock != 0 && (!fromSmo || n.Level() > level))
                           || (n.Level() > level && !ClearBelow(mem.nodes, n, key, level))
      ensures res == NoSuchLevel ==> RootLevel(mem) < level
      ensures res == Found ==> a in mem.nodes && mem.nodes[a].Level() == level && mem.nodes[a].Covers(key)
    {
      a := mem.root;
      var inRoot := true;
      while true
        invariant a in mem.nodes
        invariant inRoot ==> a == mem.root
        invariant level <= RootLevel(mem) ==> level <= mem.nodes[a].Level() && mem.nodes[a].Covers(key)
        invariant !inRoot ==> level < RootLevel(mem) && level < mem.nodes[a].Level()
        invariant !inRoot ==> var n := mem.nodes[mem.root];
          (n.lock == 0 || (fromSmo && n.Level() <= level))
          && (ClearBelow(mem.nodes, n, key, level)
              <==> mem.nodes[a].lock == 0 && ClearBelow(mem.nodes, mem.nodes[a], key, level))
        decreases mem.nodes[a].Level()
      {
        var n := mem.nodes[a];
        assert Shape(cfg, n);
        if n.lock != 0 && (!fromSmo || n.Level() > level) {
          return Locked, a;
        }
        if n.Level() == level {
          return Found, a;
        }
        if n.Level() < level {
          assert inRoot;
          return NoSuchLevel, a;
        }
        var next := PickChild(n, key);
        RouteBounds(cfg.Bf(), cfg.maxKey, n, key);
        assert LinkOk(mem, p, n, Route(n, key));
        assert a != next;
        a := next;
        if n.Level() == level + 1 {
          return Found, a;
        }
        inRoot := false;
      }
    }

    // ---- Separators move up -------------------------------------------------------------------

    /** An entry of the cache whose fence covers the key. */
    method CacheSearch(key: Key) returns (c: CacheSlot)
      requires CacheOk(trace, cache)
      ensures c.Hit? ==> CachedEarlier(trace, c, key)
      ensures c.Miss? ==> forall i :: 0 <= i < |cache| && cache[i].Hit? ==> !cache[i].node.Covers(key)
    {
      hide CachedImage;
      for i := 0 to |cache|
        invariant forall j :: 0 <= j < i && cache[j].Hit? ==> !cache[j].node.Covers(key)
      {
        assert CachedImage(trace, cache[i]);
        CachedIsInner(trace, cache[i]);
        if cache[i].node.Covers(key) {
          return cache[i];
        }
      }
      c := Miss;
    }

    /** Any inner node read unlocked may enter the cache. */
    method Remember(a: Addr)
      requires Valid() && a in mem.nodes && mem.nodes[a].Inner?
      modifies `cache
      ensures Valid() && cache == old(cache) + [Hit(a, mem.nodes[a])]
    {
      hide TraceOk, TreeInv, Loads, BlocksUnlocked;
      assert trace[|trace| - 1].mem.nodes[a] == mem.nodes[a];
      assert CachedImage(trace, Hit(a, mem.nodes[a]));
      cache := cache + [Hit(a, mem.nodes[a])];
    }

    /** Any entry may leave it. */
    method Forget(i: nat)
      requires Valid() && i < |cache|
      modifies `cache
      ensures Valid() && cache == old(cache)[..i] + old(cache)[i + 1..]
    {
      hide TraceOk, TreeInv, Loads, BlocksUnlocked, UnlockedFrom, CachedImage;
      ghost var before := cache;
      cache := cache[..i] + cache[i + 1..];
      forall j | 0 <= j < |cache|
        ensures CachedImage(trace, cache[j])
      {
        assert cache[j] == before[if j < i then j else j + 1];
      }
    }

    /** The descent that starts from a cached image and reads the nodes below it from memory, until a
        locked one. */
    method DescendTo(key: Key, cached: CacheSlot, level: nat) returns (res: FindResult, a: Addr)
      requires Traced() && cached.Hit? && CachedEarlier(trace, cached, key) && level < cached.node.height
      ensures res == Found || (res == Locked && !UnlockedFrom(mem, level + 1))
      ensures res == Locked <==> !ClearBelow(mem.nodes, cached.node, key, level)
      ensures res == Found ==>
        a in mem.nodes && mem.nodes[a].Level() == level && mem.nodes[a].lo <= key && Shape(cfg, mem.nodes[a])
      ensures res == Found ==> a == NodeBelow(mem.nodes, cached.node, key, level)
    {
      hide Structure, Exact, Evolves, TraceOk, CacheOk;
      var n := cached.node;
      CachedLinks(cfg, trace, cached, key);
      while true
        invariant InnerShape(cfg, n) && n.lo <= key && OwnWeakLinks(mem, n) && level < n.height && n.lock == 0
        invariant NodeBelow(mem.nodes, n, key, level) == NodeBelow(mem.nodes, cached.node, key, level)
        invariant ClearBelow(mem.nodes, n, key, level) <==> ClearBelow(mem.nodes, cached.node, key, level)
        decreases n.height
      {
        a := PickChild(n, key);
        RouteBounds(cfg.Bf(), cfg.maxKey, n, key);
        assert WeakLinkOk(mem, n, Route(n, key));
        TraceLast(cfg, trace);
        assert Shape(cfg, mem.nodes[a]);
        if n.height == level + 1 {
          return Found, a;
        }
        n := mem.nodes[a];
        if n.lock != 0 {
          return Locked, a;
        }
        assert forall i :: 0 <= i <= n.last ==> WeakLinkOk(mem, n, i);
      }
    }

    /** The node of the level that a cached image leads to; it may have lost the key to the right. */
    method FindCached(key: Key, cached: CacheSlot, level: nat) returns (res: FindResult, a: Addr)
      requires Traced() && cached.Hit? && CachedEarlier(trace, cached, key) && level <= cached.node.height
      ensures res == Found || (res == Locked && !UnlockedFrom(mem, level + 1))
      ensures res == Locked <==> cached.node.height > level && !ClearBelow(mem.nodes, cached.node, key, level)
      ensures res == Found ==>
        a in mem.nodes && mem.nodes[a].Level() == level && mem.nodes[a].lo <= key && Shape(cfg, mem.nodes[a])
      ensures res == Found ==> a == if cached.node.height == level then cached.addr
                                    else NodeBelow(mem.nodes, cached.node, key, level)
    {
      hide Exact, Evolves, TraceOk, CacheOk, CachedImage, UnlockedFrom, ReaderSafe;
      CachedIsInner(trace, cached);
      if cached.node.height == level {
        CachedStays(cfg, trace, cached);
        return Found, cached.addr;
      } else {
        res, a := DescendTo(key, cached, level);
      }
    }

    /** Locks a node and reads it; a lock that is held makes the CAS fail, and a node that does not cover
        the key is released again. */
    method TryLock(a: Addr, key: Key, ghost p: Pending) returns (ok: bool, n: Node)
      requires Traced() && TreeInv(cfg, mem, model, p) && a in mem.nodes
      modifies `mem, `trace
      ensures Traced() && TreeInv(cfg, mem, model, p) && Extends(old(trace), trace, model)
      ensures ok <==> old(mem.nodes[a]).lock == 0 && old(mem.nodes[a]).Covers(key)
      ensures mem == if ok then Put(old(mem), a, Relock(old(mem.nodes[a]), 1)) else old(mem)
      ensures ok ==> n == Relock(old(mem.nodes[a]), 1)
    {
      hide TreeInv, TraceOk, CacheOk, Extends;
      ghost var h, t0 := mem, trace;
      var seen := CasLock(a, p);
      ghost var t1 := trace;
      n := mem.nodes[a];
      ok := seen == 0 && n.lo <= key < n.hi;
      if seen == 0 && !ok {
        ReleaseLock(a, p);
        ExtendsTransitive(t0, t1, trace, model);
        assert Put(Put(h, a, n), a, h.nodes[a]) == h;
      }
    }

    /** Finds, locks and reads the node that must take the separator, first from a cached node, which
        may be stale, then from the root.  For a single client the attempt from the root succeeds: the
        node is not locked, its fence covers the separator, and the separator is not in it yet. */
    method LockParent(key: Key, child: Addr, level: nat) returns (res: FindResult, a: Addr, n: Node)
      requires Traced() && TreeInv(cfg, mem, model, Split(key, child, level)) && UnlockedFrom(mem, level)
      modifies `mem, `trace
      ensures Traced() && TreeInv(cfg, mem, model, Split(key, child, level)) && Extends(old(trace), trace, model)
      ensures res == Found || res == NoSuchLevel
      ensures res == NoSuchLevel ==> mem == old(mem) && level == RootLevel(mem) + 1
      ensures res == Found ==>
        && a in old(mem.nodes) && mem == Put(old(mem), a, Relock(old(mem.nodes[a]), 1))
        && n == mem.nodes[a] && n.Inner? && n.height == level && InnerShape(cfg, n) && n.Covers(key)
        && level <= RootLevel(mem)
    {
      hide TreeInv, TraceOk, CacheOk, CachedImage, Extends, InnerShape;
      ghost var h, t0 := mem, trace;
      ghost var p := Split(key, child, level);
      ExtendsReflexive(trace, model);
      SepBounded(cfg, mem, model, p);
      var ok;
      var cached := CacheSearch(key);
      if cached.Hit? && cached.node.Inner? && cached.node.height >= level {
        res, a := FindCached(key, cached, level);
        UnlockedAbove(mem, level);
        ok, n := TryLock(a, key, p);
        if ok {
          Taken(cfg, h, model, p, a);
          var found := FindSeparator(n.keys, n.last, key);
          assert !found;
          return Found, a, n;
        }
      }
      ghost var t1 := trace;
      n := mem.nodes[mem.root];
      res, a := FindNode(key, level, true, p);
      if res == NoSuchLevel {
        return;
      }
      ok, n := TryLock(a, key, p);
      Taken(cfg, h, model, p, a);
      var found := FindSeparator(n.keys, n.last, key);
      assert !found;
      ExtendsTransitive(t0, t1, trace, model);
    }

    /** Enters the separator of a split into the level above, which may split in turn. */
    method InsertInternalEntry(key: Key, child: Addr, level: nat)
      requires Traced() && TreeInv(cfg, mem, model, Split(key, child, level)) && UnlockedFrom(mem, level)
      modifies `mem, `trace
      ensures Traced() && TreeInv(cfg, mem, model, NoSplit) && InnerWork(old(mem), mem)
      ensures Extends(old(trace), trace, model)
      decreases RootLevel(mem) + 1 - level, 1
    {
      hide ReaderSafe, Evolves, TraceOk, CacheOk, Structure, AllExact, KeysBounded, WithEntry, Extends, InnerWork;
      ghost var h0, t0 := mem, trace;
      var res, a, n := LockParent(key, child, level);
      ghost var h1, t1 := mem, trace;
      if res == NoSuchLevel {
        SetupNewRoot(key, child, level);
        ExtendsTransitive(t0, t1, trace, model);
        return;
      }
      LockStep(h0, h1, a);
      if n.last + 1 >= cfg.Bf() {
        SplitInternalNode(a, n, key, child);
      } else {
        EnterNode(a, n, key, child);
      }
      ghost var h2, t2 := mem, trace;
      WorkedNode(h1, h2, a);
      ReleaseLock(a, NoSplit);
      UnlockStep(h0, h1, h2, mem, a);
      ExtendsTransitive(t0, t1, t2, model);
      ExtendsTransitive(t0, t2, trace, model);
    }

    /** Writes back a locked node with room, the separator entered. */
    method EnterNode(a: Addr, n: Node, key: Key, child: Addr)
      requires n.Inner? && a in mem.nodes && mem.nodes[a] == n && n.last + 1 < cfg.Bf() && n.Covers(key)
      requires Traced() && TreeInv(cfg, mem, model, Split(key, child, n.height))
      modifies `mem, `trace
      ensures Traced() && TreeInv(cfg, mem, model, NoSplit) && InnerWork(old(mem), mem)
      ensures Extends(old(trace), trace, model)
    {
      hide ReaderSafe, Evolves, TraceOk, CacheOk, Links, Disjoint, AllExact, TopOk, KeysBounded, InnerWork,
           WithEntry, Route;
      ghost var p := Split(key, child, n.height);
      assert Shape(cfg, n);
      PendingParent(cfg, mem, p, a);
      assert key !in n.keys[..n.last] by {
        assert n.keys[..n.last] == n.keys[..n.last + 1][..n.last];
      }
      var w := EnteredNode(n, key, child);
      EnterKeepsInv(cfg, mem, model, p, a);
      WriteNode(a, w);
    }

    /** Splits a full, locked node while entering the separator. */
    method SplitInternalNode(a: Addr, n: Node, key: Key, child: Addr)
      requires n.Inner? && a in mem.nodes && mem.nodes[a] == n && n.last + 1 == cfg.Bf() && n.Covers(key)
      requires Traced() && TreeInv(cfg, mem, model, Split(key, child, n.height)) && UnlockedFrom(mem, n.height + 1)
      modifies `mem, `trace
      ensures Traced() && TreeInv(cfg, mem, model, NoSplit) && InnerWork(old(mem), mem)
      ensures Extends(old(trace), trace, model)
      decreases RootLevel(mem) + 1 - n.height, 0
    {
      hide ReaderSafe, Evolves, TraceOk, CacheOk, Structure, AllExact, KeysBounded, Extends, InnerWork;
      ghost var h0, t0 := mem, trace;
      var l, r, d := WriteHalves(a, n, key, child);
      ghost var h1, t1 := mem, trace;
      InsertInternalEntry(r.lo, d, n.height + 1);
      SplitFrame(h0, mem, a, d, l, r);
      ExtendsTransitive(t0, t1, trace, model);
    }

    /** Builds the two halves of an overfull node, and writes the new one before the old one. */
    method WriteHalves(a: Addr, n: Node, key: Key, child: Addr) returns (l: Node, r: Node, d: Addr)
      requires n.Inner? && a in mem.nodes && mem.nodes[a] == n && n.last + 1 == cfg.Bf() && n.Covers(key)
      requires Traced() && TreeInv(cfg, mem, model, Split(key, child, n.height)) && UnlockedFrom(mem, n.height + 1)
      modifies `mem, `trace
      ensures l.Inner? && r.Inner? && l.lock == n.lock && r.lock == 0 && InnerShape(cfg, n) && cfg.Bf() >= 4
      ensures var w := WithEntry(Roomier(n), key, child);
        l == LeftHalf(w, cfg.Bf() / 2) && r == RightHalf(w, cfg.Bf() / 2)
      ensures d !in old(mem.nodes) && mem == Put(Put(old(mem), d, r), a, l)
      ensures Traced() && TreeInv(cfg, mem, model, Split(r.lo, d, n.height + 1)) && UnlockedFrom(mem, n.height + 1)
      ensures n.height <= RootLevel(old(mem)) == RootLevel(mem)
      ensures Extends(old(trace), trace, model)
    {
      hide ReaderSafe, Evolves, TraceOk, CacheOk, TreeInv, UnlockedFrom, Extends, Traced, WithEntry, LeftHalf,
           RightHalf, Roomier, RootLevel;
      ghost var p := Split(key, child, n.height);
      l, r := OverfullHalves(n, key, child, p);
      d := Allocate();
      HalvesReady(cfg, mem, model, p, a, l, d, r);
      WritePair(d, r, a, l);
    }

    /** Two node writes in order. */
    method WritePair(d: Addr, r: Node, a: Addr, l: Node)
      requires Traced() && ReaderSafe(cfg, Put(mem, d, r), model) && Evolves(mem, Put(mem, d, r))
      requires ReaderSafe(cfg, Put(Put(mem, d, r), a, l), model) && Evolves(Put(mem, d, r), Put(Put(mem, d, r), a, l))
      modifies `mem, `trace
      ensures Traced() && mem == Put(Put(old(mem), d, r), a, l) && Extends(old(trace), trace, model)
    {
      hide ReaderSafe, Evolves, TraceOk, CacheOk;
      WriteNode(d, r);
      WriteNode(a, l);
    }

    method OverfullHalves(n: Node, key: Key, child: Addr, ghost p: Pending) returns (l: Node, r: Node)
      requires n.Inner? && n.last + 1 == cfg.Bf() && n.Covers(key) && p == Split(key, child, n.height)
      requires TreeInv(cfg, mem, model, p) && n in mem.nodes.Values
      ensures InnerShape(cfg, n) && cfg.Bf() >= 4
      ensures var w := WithEntry(Roomier(n), key, child);
        l == LeftHalf(w, cfg.Bf() / 2) && r == RightHalf(w, cfg.Bf() / 2)
      ensures l.Inner? && r.Inner? && l.lock == n.lock && r.lock == 0 && l.height == r.height == n.height
      ensures r.lo == WithEntry(Roomier(n), key, child).keys[cfg.Bf() / 2]
    {
      hide ReaderSafe, TraceOk, CacheOk, Links, Disjoint, AllExact, TopOk, KeysBounded;
      ghost var a :| a in mem.nodes && mem.nodes[a] == n;
      assert Shape(cfg, n);
      BfFacts(cfg);
      PendingParent(cfg, mem, p, a);
      var room := n.(keys := n.keys + [0], kids := n.kids + [0]);
      RoomierShape(cfg.Bf(), cfg.maxKey, n, key);
      assert n.keys[..n.last] == n.keys[..n.last + 1][..n.last];
      var w := EnteredNode(room, key, child);
      l, r := Halves(w, cfg.Bf() / 2);
    }

    method SetupNewRoot(key: Key, right: Addr, level: nat)
      requires Traced() && TreeInv(cfg, mem, model, Split(key, right, level)) && level == RootLevel(mem) + 1
      modifies `mem, `trace
      ensures Traced() && TreeInv(cfg, mem, model, NoSplit) && InnerWork(old(mem), mem)
      ensures Extends(old(trace), trace, model)
    {
      hide ReaderSafe, Evolves, TraceOk, CacheOk, TreeInv, InnerWork, RootLevel;
      ghost var p := Split(key, right, level);
      var d := Allocate();
      var old_root := mem.root;
      RootKeepsInv(cfg, mem, model, p, d);
      var n := Inner(0, 0, cfg.maxKey, level, 1, [key] + Zeros(cfg.Bf() - 1), [old_root, right] + Zeros(cfg.Bf() - 2));
      WriteNode(d, n);
      var seen := CasRoot(old_root, d);
    }

    // ---- Splitting a leaf -----------------------------------------------------------------------

    /** Fetch-and-add of +1 or -1 on every block of a leaf, in order. */
    method LockBlocks(a: Addr, locked: bool)
      requires Traced() && TreeInv(cfg, mem, model, NoSplit) && a in mem.nodes && mem.nodes[a].Leaf?
      requires forall i :: 0 <= i < |mem.nodes[a].blocks| ==> mem.nodes[a].blocks[i].locked != locked
      modifies `mem, `trace
      ensures mem == Put(old(mem), a, WithLocks(old(mem.nodes[a]), cfg.Bf(), locked))
      ensures Traced() && TreeInv(cfg, mem, model, NoSplit) && Extends(old(trace), trace, model)
    {
      hide ReaderSafe, Evolves, TraceOk, CacheOk, Structure, AllExact, KeysBounded, Extends;
      ghost var h, t := mem, trace;
      var n := mem.nodes[a];
      LeafHasShape(cfg, mem, model, a);
      WithNoLocks(n, locked);
      assert Put(h, a, n) == h;
      ExtendsReflexive(trace, model);
      for i := 0 to cfg.Bf()
        invariant mem == Put(h, a, WithLocks(n, i, locked))
        invariant Traced() && TreeInv(cfg, mem, model, NoSplit) && Extends(t, trace, model)
      {
        ghost var u := trace;
        var l := mem.nodes[a];
        WithOneMoreLock(n, i, locked);
        var b := if locked then FaaUp(l.blocks[i]) else FaaDown(l.blocks[i]);
        assert b == l.blocks[i].(locked := locked);
        LocksKeepInv(cfg, mem, model, a, l.(blocks := l.blocks[i := b]));
        WriteNode(a, l.(blocks := l.blocks[i := b]));
        OneMore(u, Snapshot(mem, model));
        ExtendsTransitive(t, u, trace, model);
      }
    }

    /** Reads the keys of the used blocks and orders the blocks by key, the last block of each key. */
    method Gather(n: Node) returns (es: seq<Entry>)
      requires n.Leaf? && Sound(mem.items, model, n)
      ensures Gathered(mem.items, n, |n.blocks|, es) && LastWins(mem.items, n, |n.blocks|, es)
      ensures Distinct(mem.items, n) ==> |es| == Used(n.blocks)
    {
      es := [];
      assert n.blocks[..0] == [];
      for i := 0 to |n.blocks|
        invariant Gathered(mem.items, n, i, es) && LastWins(mem.items, n, i, es)
        invariant Distinct(mem.items, n) ==> |es| == Used(n.blocks[..i])
      {
        hide Gathered, LastWins, Distinct, Entered, Sound, Used;
        es := GatherBlock(n, i, es);
      }
      assert n.blocks[..|n.blocks|] == n.blocks;
    }

    /** One more block. */
    method GatherBlock(n: Node, i: nat, es: seq<Entry>) returns (r: seq<Entry>)
      requires n.Leaf? && Sound(mem.items, model, n) && i < |n.blocks|
      requires Gathered(mem.items, n, i, es) && LastWins(mem.items, n, i, es)
      requires Distinct(mem.items, n) ==> |es| == Used(n.blocks[..i])
      ensures Gathered(mem.items, n, i + 1, r) && LastWins(mem.items, n, i + 1, r)
      ensures Distinct(mem.items, n) ==> |r| == Used(n.blocks[..i + 1])
    {
      hide Gathered, LastWins, Distinct, Entered;
      assert n.blocks[..i + 1][..i] == n.blocks[..i];
      assert BlockOk(mem.items, model, n, i);
      if n.blocks[i].free {
        GatherSkip(mem.items, n, i, es);
        return es;
      }
      var e := Entry(mem.items[n.blocks[i].addr].key, n.blocks[i]);
      GatheredIsSorted(mem.items, n, i, es);
      var at;
      r, at := PutEntry(es, e);
      GatherStep(mem.items, n, i, es, e, r, at);
      if Distinct(mem.items, n) {
        NewKey(mem.items, n, i, es, e.key);
      }
    }

    /** Splits the leaf at `a` unless it has too few entries; the separator moves up. */
    method SplitLeaf(a: Addr) returns (done: bool)
      requires Traced() && TreeInv(cfg, mem, model, NoSplit) && LoadsExcept(cfg, mem, a)
      requires UnlockedFrom(mem, 0) && BlocksUnlocked(mem) && a in mem.nodes && mem.nodes[a].Leaf?
      modifies `mem, `trace
      ensures Valid() && Extends(old(trace), trace, model) && mem.items == old(mem.items)
      ensures done <==> Used(old(mem.nodes[a].blocks)) > cfg.Bf() / 2
      ensures !done ==> mem == old(mem)
      ensures done ==> exists d :: LeafCutAt(old(mem), mem, a, d, Used(old(mem.nodes[a].blocks)))
    {
      hide ReaderSafe, Evolves, TraceOk, CacheOk, Structure, AllExact, KeysBounded, Extends, InnerWork,
           Gathered, WithLocks, LeafCutAt;
      ghost var h0, t0 := mem, trace;
      var seen := CasLock(a, NoSplit);
      assert seen == 0;
      ghost var t1 := trace;
      LockBlocks(a, true);
      ghost var h2, t2 := mem, trace;
      ExtendsTransitive(t0, t1, t2, model);
      var n := mem.nodes[a];
      assert mem.nodes == h0.nodes[a := n];
      FrozenLeaf(cfg, h0, model, a, n);
      LeafIsExact(mem, model, a);
      var es := Gather(n);
      if |es| <= cfg.Bf() / 2 {
        LockBlocks(a, false);
        LocksKeepWord(n, cfg.Bf(), false);
        ghost var t3 := trace;
        ReleaseLock(a, NoSplit);
        ExtendsTransitive(t2, t3, trace, model);
        Restored(cfg, h0, model, mem, a);
        done := false;
      } else {
        ghost var d := CutAndLink(a, n, es);
        CutFromBefore(h0, h2, mem, a, d, Used(n.blocks));
        done := true;
      }
      ExtendsTransitive(t0, t2, trace, model);
    }

    /** The second part of a leaf split, from the frozen image of the leaf on. */
    method CutAndLink(a: Addr, n: Node, es: seq<Entry>) returns (ghost at: Addr)
      requires Traced() && TreeInv(cfg, mem, model, NoSplit)
      requires a in mem.nodes && mem.nodes[a] == n && LeafShape(cfg, n) && n.lock == 1
      requires Gathered(mem.items, n, |n.blocks|, es) && |es| > cfg.Bf() / 2 && |es| == Used(n.blocks)
      requires LoadsExcept(cfg, mem, a) && UnlockedExcept(mem, a) && BlocksUnlockedExcept(mem, a)
      modifies `mem, `trace
      ensures Valid() && Extends(old(trace), trace, model) && mem.items == old(mem.items)
      ensures LeafCutAt(old(mem), mem, a, at, |es|)
    {
      hide ReaderSafe, Evolves, TraceOk, CacheOk, Structure, AllExact, KeysBounded, Extends, InnerWork,
           Gathered, PartOf, LeafCutAt;
      ghost var h1, t1 := mem, trace;
      BfFactsOf(cfg, mem, model, NoSplit);
      var l, r, d := WriteLeaves(a, n, es);
      ghost var h2, t2 := mem, trace;
      AllUnlockedAbove(h1, h2, a, l, d, r);
      InsertInternalEntry(r.lo, d, 1);
      ghost var h3, t3 := mem, trace;
      WorkedNode(h2, h3, a);
      ReleaseLock(a, NoSplit);
      SplitDone(cfg, h1, h3, mem, a, l, d, r);
      CutAfterWork(h1, h3, mem, a, l, d, r, |es|);
      at := d;
      ExtendsTransitive(t1, t2, t3, model);
      ExtendsTransitive(t1, t3, trace, model);
    }

    /** Writes the new right leaf, then the old leaf. */
    method WriteLeaves(a: Addr, n: Node, es: seq<Entry>) returns (l: Node, r: Node, d: Addr)
      requires Traced() && TreeInv(cfg, mem, model, NoSplit)
      requires a in mem.nodes && mem.nodes[a] == n && LeafShape(cfg, n)
      requires Gathered(mem.items, n, |n.blocks|, es) && |es| > cfg.Bf() / 2 && |es| == Used(n.blocks)
      modifies `mem, `trace
      ensures HalvedLeaf(cfg, n, l, r) && d !in old(mem.nodes) && r.lo == es[|es| / 2].key
      ensures Used(l.blocks) == |es| / 2 && Used(r.blocks) == |es| - |es| / 2
      ensures LeafFreeze.LeftOf(LeafFence.KeyMap(mem.items), n.blocks, r.lo, l.blocks)
      ensures LeafFreeze.RightOf(LeafFence.KeyMap(mem.items), n.blocks, r.lo, r.blocks)
      ensures mem == Put(Put(old(mem), d, r), a, l)
      ensures Traced() && TreeInv(cfg, mem, model, Split(r.lo, d, 1)) && Extends(old(trace), trace, model)
    {
      hide ReaderSafe, Evolves, TraceOk, CacheOk, Structure, AllExact, KeysBounded, Gathered, PartOf;
      BfFactsOf(cfg, mem, model, NoSplit);
      UsedBound(n.blocks);
      GatheredSorted(mem.items, n, es);
      l, r := LeafHalves(cfg, n, es);
      hide LeafFreeze.LeftOf, LeafFreeze.RightOf, LeafFence.KeyMap;
      LeafFence.SplitWritesHalves(mem.items, n, es, l, r);
      d := Allocate();
      LeafCutKeepsInv(cfg, mem, model, a, n, es, l, d, r);
      WriteNode(d, r);
      WriteNode(a, l);
    }

    // ---- Leaf access ----------------------------------------------------------------------------

    method WriteItem(a: Addr, it: Item)
      requires Valid() && a !in mem.items
      modifies `mem, `trace
      ensures Valid() && mem == old(mem).(items := old(mem).items[a := it]) && Extends(old(trace), trace, model)
    {
      hide TraceOk, CacheOk, Structure, Links, WeakLinks, Exact, Shapes;
      NewItemKeepsInv(cfg, mem, model, a, it);
      mem := mem.(items := mem.items[a := it]);
      TraceAppend(cfg, trace, Snapshot(mem, model));
      CacheStays(trace, trace + [Snapshot(mem, model)], cache);
      trace := trace + [Snapshot(mem, model)];
    }

    /** Compare-and-swap on one block of a leaf; when it succeeds the abstract map becomes `m`. */
    method CasBlock(a: Addr, i: nat, expected: Block, desired: Block, ghost m: map<Key, Value>) returns (seen: Block)
      requires Traced() && a in mem.nodes && mem.nodes[a].Leaf? && i < |mem.nodes[a].blocks|
      requires mem.nodes[a].blocks[i] == expected ==>
        var g := Put(mem, a, mem.nodes[a].(blocks := mem.nodes[a].blocks[i := desired]));
        ReaderSafe(cfg, g, m) && Evolves(mem, g)
      modifies `mem, `trace, `model
      ensures Traced() && seen == old(mem.nodes[a].blocks[i])
      ensures if seen == expected then
                && mem == Put(old(mem), a, old(mem.nodes[a]).(blocks := old(mem.nodes[a].blocks)[i := desired]))
                && model == m && trace == old(trace) + [Snapshot(mem, model)]
              else mem == old(mem) && model == old(model) && trace == old(trace)
    {
      hide ReaderSafe, Evolves, TraceOk, CacheOk;
      var n := mem.nodes[a];
      seen := n.blocks[i];
      if seen == expected {
        mem := Put(mem, a, n.(blocks := n.blocks[i := desired]));
        model := m;
        TraceAppend(cfg, trace, Snapshot(mem, model));
        CacheStays(trace, trace + [Snapshot(mem, model)], cache);
        trace := trace + [Snapshot(mem, model)];
      }
    }

    /** The used blocks of a leaf with fingerprint `fp`, with the items they point to. */
    method Candidates(n: Node, fp: nat, fromInsert: bool, fromRead: bool)
        returns (success: bool, cands: seq<Cand>, ghost all: seq<Cand>)
      requires n.Leaf? && Sound(mem.items, model, n)
      ensures success <==> fromRead || !SomeLocked(n)
      ensures AllCands(mem.items, n, fp, |n.blocks|, all)
      ensures cands == if !success || (fromInsert && |all| == 1) then [] else all
    {
      var smo := false;
      cands := [];
      for i := 0 to |n.blocks|
        invariant smo <==> exists j :: 0 <= j < i && n.blocks[j].locked
        invariant AllCands(mem.items, n, fp, i, cands)
      {
        if n.blocks[i].locked {
          smo := true;
        }
        assert BlockOk(mem.items, model, n, i);
        ghost var before := cands;
        if !n.blocks[i].free && n.blocks[i].fp == fp {
          cands := cands + [Cand(i, mem.items[n.blocks[i].addr])];
        }
        MoreCands(mem.items, n, fp, i, before, cands);
      }
      success, all := fromRead || !smo, cands;
      if !success || (fromInsert && |cands| == 1) {
        cands := [];
      }
    }

    /** Looks a key up in a leaf image, as a reader does: the answer is the entry of the abstract
        map, or the fence of the leaf does not cover the key. */
    method Lookup(key: Key, n: Node) returns (ok: bool, found: bool, value: Value)
      requires n.Leaf? && Exact(mem.items, model, n)
      ensures ok <==> n.Covers(key)
      ensures ok ==> (found <==> key in model) && (found ==> value == model[key])
    {
      found, value := false, 0;
      if key < n.lo || key >= n.hi {
        return false, found, value;
      }
      var success, cands, _ := Candidates(n, Fp(key), false, true);
      var i := 0;
      while i < |cands|
        invariant 0 <= i <= |cands|
        invariant found <==> exists j :: 0 <= j < i && cands[j].item.key == key
        invariant found ==> key in model && value == model[key]
      {
        if cands[i].item.key == key {
          CandEntry(mem.items, model, n, Fp(key), cands, i);
          // a second match would be removed; there is none
          OneCand(mem.items, n, Fp(key), cands, key);
          assert !found;
          found := true;
          value := cands[i].item.value;
        }
        i := i + 1;
      }
      CandsFind(mem.items, model, n, key, cands);
      return true, found, value;
    }

    // ---- The operations of a client -------------------------------------------------------------

    /** An empty leaf over all keys is the first root. */
    constructor Initialize(cfg: Config, root: Addr)
      requires cfg.Ok()
      ensures Valid() && model == map[] && this.cfg == cfg && mem.nodes.Keys == {mem.root} && mem.items == map[]
    {
      this.cfg := cfg;
      var leaf := Leaf(0, 0, cfg.maxKey, seq(cfg.Bf(), _ => Block(0, 0, true, false)));
      var m := Memory(map[root := leaf], map[], root);
      this.mem := m;
      this.model := map[];
      this.trace := [Snapshot(m, map[])];
      this.cache := [];
      new;
      EmptyTree(cfg, root, leaf);
    }

    /** The address of a leaf for `key`: from the root, or, at the first attempt, from a node image
        cached at any earlier moment. */
    method Locate(key: Key, cached: CacheSlot, useCache: bool) returns (a: Addr, fromCache: bool)
      requires Valid() && key < cfg.maxKey
      requires cached.Hit? ==> CachedEarlier(trace, cached, key)
      ensures a in mem.nodes && mem.nodes[a].Leaf? && mem.nodes[a].lo <= key
      ensures fromCache <==> useCache && cached.Hit?
      ensures if fromCache then a == NodeBelow(mem.nodes, cached.node, key, 0) else mem.nodes[a].Covers(key)
    {
      hide Structure, Exact, ReaderSafe, Evolves, TraceOk, CacheOk;
      fromCache := useCache && cached.Hit?;
      if fromCache {
        CachedIsInner(trace, cached);
        CachedAboveLeaf(cfg, trace, cached, key);
        UnlockedAbove(mem, 0);
        var res;
        res, a := DescendTo(key, cached, 0);
      } else {
        LeavesHaveLevelZero(cfg, mem, model);
        var res;
        res, a := FindNode(key, 0, false, NoSplit);
      }
    }

    /** Reads a key.  The answer is the entry of the abstract map; a stale cached node costs at
        most one more attempt. */
    method Read(key: Key, cached: CacheSlot) returns (found: bool, value: Value, attempts: nat)
      requires Valid() && key < cfg.maxKey
      requires cached.Hit? ==> CachedEarlier(trace, cached, key)
      ensures found <==> key in model
      ensures found ==> value == model[key]
      ensures attempts == if LostBelow(mem.nodes, cached, key) then 2 else 1
    {
      hide Structure, Evolves, TraceOk, CacheOk, Exact;
      attempts := 0;
      while true
        invariant attempts <= 1 && (attempts == 1 ==> LostBelow(mem.nodes, cached, key))
        decreases 2 - attempts
      {
        var a, fromCache := Locate(key, cached, attempts == 0);
        var leaf := mem.nodes[a];
        LeafIsExact(mem, model, a);
        var ok;
        ok, found, value := Lookup(key, leaf);
        attempts := attempts + 1;
        if ok {
          return;
        }
      }
    }

    /** Inserts or updates a key.  It fails only for an absent key whose leaf has no free block,
        after a million attempts; otherwise it needs one, or two with a stale cached node. */
    method Insert(key: Key, value: Value, seed: nat, cached: CacheSlot) returns (ok: bool, ghost tries: nat)
      requires Valid() && key < cfg.maxKey
      requires cached.Hit? ==> CachedEarlier(trace, cached, key)
      modifies `mem, `trace, `model
      ensures Valid()
      ensures ok <==> key in old(model) || !LeafFull(cfg, old(mem), key)
      ensures model == if ok then old(model)[key := value] else old(model)
      ensures cfg.watermark < cfg.Bf() ==> ok
      ensures tries == if !ok then 1_000_000 else if LostBelow(old(mem).nodes, cached, key) then 2 else 1
      ensures if ok then Inserted(cfg, old(mem), mem, key in old(model), seed, Item(key, value))
              else mem.nodes == old(mem.nodes) && mem.root == old(mem.root)
      ensures mem.nodes.Keys != old(mem.nodes).Keys <==> ok && key !in old(model) && WillBeCut(cfg, old(mem), key)
      ensures mem.nodes.Keys == old(mem.nodes).Keys ==> mem.root == old(mem.root)
      ensures ok ==> |mem.items| + |old(model)| == |old(mem).items| + |model|
      ensures Between(old(trace), trace, old(model), model)
    {
      hide Structure, Evolves, TraceOk, CacheOk, AllExact, ReaderSafe, Between, LeafFull, Extends, Private, Loads,
           Updated, Added, WillBeCut;
      ghost var h0, t0, m0 := mem, trace, model;
      ExtendsReflexive(t0, m0);
      BfFactsOf(cfg, mem, model, NoSplit);
      var item := Allocate();
      FreshIsPrivate(mem, model, item);
      var wrote := false;
      var attempt := 0;
      while attempt < 1000000
        invariant Valid() && model == m0 && mem.nodes == h0.nodes && mem.root == h0.root && Extends(t0, trace, m0)
          && Private(mem, item)
        invariant mem == if wrote then WithItem(h0, item, Item(key, value)) else h0
        invariant attempt > 0 ==> wrote
        invariant attempt <= 1000000
        invariant attempt == 1 ==> LostBelow(h0.nodes, cached, key) || (key !in m0 && LeafFull(cfg, h0, key))
        invariant attempt >= 2 ==> key !in m0 && LeafFull(cfg, h0, key)
        decreases 1000000 - attempt
      {
        StillCached(t0, trace, m0, cached, key);
        var a, fromCache := Locate(key, cached, attempt == 0);
        var leaf := mem.nodes[a];
        ghost var t1 := trace;
        if !wrote {
          SamePrivate(mem, mem.(items := mem.items[item := Item(key, value)]), item);
          WriteItem(item, Item(key, value));
          wrote := true;
          ExtendsTransitive(t0, t1, trace, m0);
        }
        attempt := attempt + 1;
        if leaf.lock == 0 && leaf.lo <= key < leaf.hi {
          ghost var t2 := trace;
          ok := TryInsert(key, value, item, a, leaf, seed);
          if ok {
            ThenBetween(t0, t2, trace, m0, model);
            RoomAt(cfg, h0, m0, a, key);
            assert InsertedAt(cfg, h0, mem, key in m0, seed, a, item, Item(key, value));
            tries := attempt;
            InsertedCounts(cfg, h0, m0, mem, seed, Item(key, value));
            return;
          }
          FullAt(cfg, h0, m0, a, key);
        }
      }
      StuckInsert(cfg, h0, key);
      ExtendsIsBetween(t0, trace, m0);
      ok, tries := false, attempt;
    }

    /** One attempt at a leaf that covers the key and is not being split. */
    method TryInsert(key: Key, value: Value, item: Addr, a: Addr, leaf: Node, seed: nat) returns (done: bool)
      requires Valid() && key < cfg.maxKey && a in mem.nodes && mem.nodes[a] == leaf && leaf.Leaf? && leaf.Covers(key)
      requires item in mem.items && mem.items[item] == Item(key, value) && Private(mem, item)
      modifies `mem, `trace, `model
      ensures Valid() && Between(old(trace), trace, old(model), model)
      ensures done <==> key in old(model) || Used(leaf.blocks) < |leaf.blocks|
      ensures done ==>
        if key in old(model) then Updated(old(mem), mem, a, key, item)
        else Added(cfg, old(mem), mem, seed, a, key, item)
      ensures if done then model == old(model)[key := value]
              else mem == old(mem) && model == old(model) && trace == old(trace)
    {
      hide Structure, Evolves, TraceOk, CacheOk, ReaderSafe, Between, Private, Loads, Added, BlockStored;
      LeafIsExact(mem, model, a);
      LeafHasShape(cfg, mem, model, a);
      SettledLeaf(mem, a);
      var found, index := FindKey(leaf, key);
      FreeSlot(leaf.blocks);
      if found {
        UpdateBlock(a, index, key, value, item);
        return true;
      }
      var slot := ProbeFree(cfg, leaf, seed);
      if slot < 0 {
        ExtendsIsBetween0(trace, model);
        return false;
      }
      InsertBlock(a, slot, key, value, item, seed);
      return true;
    }

    /** The block of the leaf that holds the key. */
    method FindKey(leaf: Node, key: Key) returns (found: bool, index: nat)
      requires leaf.Leaf? && leaf.Covers(key) && Exact(mem.items, model, leaf) && !SomeLocked(leaf)
      ensures found <==> key in model
      ensures found ==> Holds(mem.items, leaf, index, key)
    {
      var success, cands, _ := Candidates(leaf, Fp(key), false, false);
      CandsFind(mem.items, model, leaf, key, cands);
      found, index := false, 0;
      for i := 0 to |cands|
        invariant forall j :: 0 <= j < i ==> cands[j].item.key != key
      {
        if cands[i].item.key == key {
          CandEntry(mem.items, model, leaf, Fp(key), cands, i);
          return true, cands[i].index;
        }
      }
    }

    /** The update: the block is swapped for one that points to the new item, and the old item is
        freed. */
    method UpdateBlock(a: Addr, i: nat, key: Key, value: Value, item: Addr)
      requires Valid() && key < cfg.maxKey && a in mem.nodes && Holds(mem.items, mem.nodes[a], i, key)
      requires mem.nodes[a].Covers(key)
      requires item in mem.items && mem.items[item] == Item(key, value) && Private(mem, item)
      modifies `mem, `trace, `model
      ensures Valid() && Between(old(trace), trace, old(model), model)
      ensures model == old(model)[key := value]
      ensures mem.items == old(mem).items - {old(mem.nodes[a]).blocks[i].addr}
      ensures BlockStored(old(mem), mem, a, i, key, item)
    {
      hide Structure, Evolves, TraceOk, CacheOk, ReaderSafe, AllExact, Loads, Private, UnlockedFrom, BlocksUnlocked;
      ghost var h0, t0, m0 := mem, trace, model;
      var expected := mem.nodes[a].blocks[i];
      UpdateKeepsInv(cfg, mem, model, a, i, item);
      var seen := CasBlock(a, i, expected, Block(Fp(key), item, false, false), model[key := value]);
      assert seen == expected;
      assert mem == Put(h0, a, WithBlock(h0.nodes[a], i, key, item));
      ghost var t1 := trace;
      UpdateUnreferences(cfg, h0, m0, a, i, item);
      ItemsKeepRest(cfg, mem, mem.(items := mem.items - {expected.addr}));
      FreeItem(expected.addr);
    }

    /** The allocator takes an item back. */
    method FreeItem(old_item: Addr)
      requires Traced() && TreeInv(cfg, mem, model, NoSplit) && Private(mem, old_item)
      modifies `mem, `trace
      ensures Traced() && TreeInv(cfg, mem, model, NoSplit)
      ensures mem == old(mem).(items := old(mem).items - {old_item})
      ensures trace == old(trace) + [Snapshot(mem, model)]
    {
      hide ReaderSafe, Evolves, TraceOk, CacheOk, TreeInv, Private;
      FreedKeepsInv(cfg, mem, model, old_item);
      mem := mem.(items := mem.items - {old_item});
      TraceAppend(cfg, trace, Snapshot(mem, model));
      CacheStays(trace, trace + [Snapshot(mem, model)], cache);
      trace := trace + [Snapshot(mem, model)];
    }

    /** The insertion of an absent key into a free block, and the split it may call for. */
    method InsertBlock(a: Addr, slot: nat, key: Key, value: Value, item: Addr, ghost seed: nat)
      requires Valid() && key < cfg.maxKey && key !in model && a in mem.nodes && mem.nodes[a].Leaf?
      requires FirstFree(cfg, mem.nodes[a].blocks, seed, slot) && mem.nodes[a].Covers(key)
      requires item in mem.items && mem.items[item] == Item(key, value)
      modifies `mem, `trace, `model
      ensures Valid() && Between(old(trace), trace, old(model), model)
      ensures model == old(model)[key := value]
      ensures Added(cfg, old(mem), mem, seed, a, key, item)
    {
      hide Structure, Evolves, TraceOk, CacheOk, ReaderSafe, AllExact, Loads, UnlockedFrom, BlocksUnlocked,
           LoadsExcept, Between, Extends, LeafCutAt;
      ghost var h0, t0, m0 := mem, trace, model;
      var expected := mem.nodes[a].blocks[slot];
      LeafHasShape(cfg, mem, model, a);
      InsertKeepsInv(cfg, mem, model, a, slot, item);
      var seen := CasBlock(a, slot, expected, Block(Fp(key), item, false, false), model[key := value]);
      assert seen == expected;
      assert mem == Put(h0, a, WithBlock(h0.nodes[a], slot, key, item));
      var leaf := mem.nodes[a];
      var used := CountUsed(leaf.blocks);
      ghost var t1 := trace;
      OneMoreBetween(t0, m0, Snapshot(mem, model));
      UsedUpdate(h0.nodes[a].blocks, slot, Block(Fp(key), item, false, false));
      ghost var h1 := mem;
      assert BlockStored(h0, h1, a, slot, key, item);
      if used > cfg.watermark {
        var done := SplitLeaf(a);
        ThenExtends(t0, t1, trace, m0, model);
        if done {
          ghost var d :| LeafCutAt(h1, mem, a, d, used);
          CutFromBefore(h0, h1, mem, a, d, used);
        }
      } else {
        LightLeaf(cfg, mem, a);
        LeafIsExact(mem, model, a);
        SettledLeaf(mem, a);
        var removed := RemoveDupes(key, leaf);
      }
    }

    /** The blocks that the duplicate removal after an insertion would delete. */
    method RemoveDupes(key: Key, n: Node) returns (removed: nat)
      requires n.Leaf? && Exact(mem.items, model, n) && !SomeLocked(n)
      ensures removed == 0
    {
      removed := 0;
      var found := false;
      var success, cands, _ := Candidates(n, Fp(key), true, false);
      if cands == [] {
        return;
      }
      OneCand(mem.items, n, Fp(key), cands, key);
      hide AllCands, Exact, SomeLocked;
      ghost var at := 0;
      for i := 0 to |cands|
        invariant removed == 0
        invariant found ==> 0 <= at < i && cands[at].item.key == key
      {
        if cands[i].item.key == key {
          removed := removed + (if found then 1 else 0);
          found, at := true, i;
        }
      }
    }

    /** A sequence of upserts by one client, from the empty tree or any later one. */
    method InsertAll(ops: seq<(Key, Value)>, seeds: seq<nat>) returns (ok: bool)
      requires Valid() && cfg.watermark < cfg.Bf() && |seeds| == |ops|
      requires forall i :: 0 <= i < |ops| ==> ops[i].0 < cfg.maxKey
      modifies `mem, `trace, `model
      ensures Valid() && ok && model == Upserts(old(model), ops)
      ensures |mem.items| + |old(model)| == |old(mem).items| + |model|
    {
      ok := true;
      ghost var h0, m0 := mem, model;
      for i := 0 to |ops|
        invariant Valid() && ok && model == Upserts(m0, ops[..i])
        invariant |mem.items| + |m0| == |h0.items| + |model|
      {
        UpsertsStep(m0, ops, i);
        var done, _ := Insert(ops[i].0, ops[i].1, seeds[i], Miss);
        ok := done;
      }
      assert ops[..|ops|] == ops;
    }
  }

  /** The images of the two nodes an overfull node is cut into, entry by entry. */
  method Halves(w: Node, mid: nat) returns (l: Node, r: Node)
    requires w.Inner? && mid + 2 < |w.keys| == |w.kids|
    ensures l == LeftHalf(w, mid) && r == RightHalf(w, mid)
  {
    var rk, rc := UpperEntries(w.keys, w.kids, mid);
    var lk, lc := LowerEntries(w.keys, w.kids, mid);
    l := Inner(w.lock, w.lo, w.keys[mid], w.height, mid, lk, lc);
    r := Inner(0, w.keys[mid], w.hi, w.height, |w.keys| - mid - 2, rk, rc);
  }

  /** The entries after the middle one, in a node of the usual size. */
  method UpperEntries(keys: seq<Key>, kids: seq<Addr>, mid: nat) returns (rk: seq<Key>, rc: seq<Addr>)
    requires mid + 2 < |keys| == |kids|
    ensures rk == keys[mid + 1..] + Zeros(mid) && rc == kids[mid + 1..] + Zeros(mid)
  {
    var size := |keys| - 1;
    rk, rc := Zeros(size), Zeros(size);
    for i := mid + 1 to size + 1
      invariant |rk| == |rc| == size
      invariant rk == keys[mid + 1..i] + Zeros(size - (i - mid - 1))
      invariant rc == kids[mid + 1..i] + Zeros(size - (i - mid - 1))
    {
      rk := rk[i - mid - 1 := keys[i]];
      rc := rc[i - mid - 1 := kids[i]];
    }
    assert keys[mid + 1..size + 1] == keys[mid + 1..] && kids[mid + 1..size + 1] == kids[mid + 1..];
  }

  /** The entries up to the middle one, the slots after it cleared. */
  method LowerEntries(keys: seq<Key>, kids: seq<Addr>, mid: nat) returns (lk: seq<Key>, lc: seq<Addr>)
    requires mid + 2 < |keys| == |kids|
    ensures lk == keys[..mid + 1] + Zeros(|keys| - mid - 2) && lc == kids[..mid + 1] + Zeros(|keys| - mid - 2)
  {
    var size := |keys| - 1;
    lk, lc := Zeros(size), Zeros(size);
    for i := 0 to mid + 1
      invariant |lk| == |lc| == size
      invariant lk == keys[..i] + Zeros(size - i)
      invariant lc == kids[..i] + Zeros(size - i)
    {
      lk := lk[i := keys[i]];
      lc := lc[i := kids[i]];
    }
  }

  /** A block drawn anew for a slot that becomes free: its address differs from the old one. */
  method Redraw(b: Block) returns (r: Block)
    ensures r.free && !r.locked && r.addr != b.addr
  {
    var fp: nat := *;
    var used := {b.addr};
    FreshExists(used);
    var addr: Addr :| addr !in used;
    r := Block(fp, addr, true, false);
  }

  /** Distributes the sorted entries over the old leaf and a new one. */
  method LeafHalves(cfg: Config, n: Node, es: seq<Entry>) returns (l: Node, r: Node)
    requires cfg.Ok() && cfg.Bf() >= 4 && n.Leaf? && |n.blocks| == cfg.Bf()
    requires cfg.Bf() / 2 < |es| <= cfg.Bf()
    requires forall j :: 0 <= j < |es| ==> !es[j].block.free
    ensures l.Leaf? && r.Leaf? && |l.blocks| == |r.blocks| == cfg.Bf()
    ensures l.lo == n.lo && l.hi == r.lo == es[|es| / 2].key && r.hi == n.hi && l.lock == n.lock && r.lock == 0
    ensures PartOf(es, 0, |es| / 2, l) && PartOf(es, |es| / 2, |es|, r)
    ensures forall i :: 0 <= i < cfg.Bf() ==> !l.blocks[i].locked
    ensures forall i :: 0 <= i < cfg.Bf() ==> !r.blocks[i].locked
    ensures forall i :: 0 <= i < cfg.Bf() && l.blocks[i].free ==> l.blocks[i].addr != n.blocks[i].addr
  {
    var bf := cfg.Bf();
    var middle := |es| / 2;
    var left := n.blocks;
    var right := seq(bf, _ => Block(0, 0, true, false));
    for i := 0 to middle
      invariant |left| == |right| == bf
      invariant forall j :: 0 <= j < i ==> left[j] == es[j].block.(locked := false)
      invariant forall j :: 0 <= j < i ==> right[j] == es[middle + j].block.(locked := false)
      invariant forall j :: i <= j < bf ==> left[j] == n.blocks[j]
      invariant forall j :: i <= j < bf ==> right[j] == Block(0, 0, true, false)
    {
      left := left[i := es[i].block.(locked := false)];
      right := right[i := es[i + middle].block.(locked := false)];
    }
    var count := middle;
    if |es| % 2 != 0 {
      right := right[middle := es[|es| - 1].block.(locked := false)];
      count := middle + 1;
    }
    left, right := ClearRest(bf, middle, count, left, right);
    assert forall j :: 0 <= j < middle ==> left[j] == es[0 + j].block.(locked := false);
    assert forall j :: 0 <= j < count ==> right[j] == es[middle + j].block.(locked := false);
    l := Leaf(n.lock, n.lo, es[middle].key, left);
    r := Leaf(0, es[middle].key, n.hi, right);
  }

  /** Draws new free blocks for the slots after the entries, in both leaves. */
  method ClearRest(bf: nat, middle: nat, count: nat, left: seq<Block>, right: seq<Block>)
      returns (l: seq<Block>, r: seq<Block>)
    requires |left| == |right| == bf && middle <= count <= bf && count <= middle + 1
    ensures |l| == |r| == bf
    ensures (forall j :: 0 <= j < middle ==> l[j] == left[j]) && forall j :: 0 <= j < count ==> r[j] == right[j]
    ensures forall j :: middle <= j < bf ==> l[j].free && !l[j].locked && l[j].addr != left[j].addr
    ensures forall j :: count <= j < bf ==> r[j].free && !r[j].locked
  {
    l, r := left, right;
    for i := middle to bf
      invariant |l| == |r| == bf
      invariant (forall j :: 0 <= j < middle ==> l[j] == left[j]) && forall j :: 0 <= j < count ==> r[j] == right[j]
      invariant forall j :: middle <= j < i ==> l[j].free && !l[j].locked && l[j].addr != left[j].addr
      invariant forall j :: i <= j < bf ==> l[j] == left[j]
      invariant forall j :: count <= j < i ==> r[j].free && !r[j].locked
    {
      var b := Redraw(l[i]);
      l := l[i := b];
      if i >= count {
        var c := Redraw(r[i]);
        r := r[i := c];
      }
    }
  }

  /** The first free block in probe order, or -1. */
  method ProbeFree(cfg: Config, leaf: Node, seed: nat) returns (slot: int)
    requires leaf.Leaf? && |leaf.blocks| == cfg.Bf() && !SomeLocked(leaf)
    ensures slot < 0 <==> forall s :: 0 <= s < |leaf.blocks| ==> !leaf.blocks[s].free
    ensures slot >= 0 ==> FirstFree(cfg, leaf.blocks, seed, slot)
  {
    ProbeIsPermutation(seed, cfg.bits);
    for i := 0 to cfg.Bf()
      invariant forall j :: 0 <= j < i ==> !leaf.blocks[XorLow(j, seed, cfg.bits)].free
      invariant NoneBefore(cfg, leaf.blocks, seed, i)
    {
      var index := XorLow(i, seed, cfg.bits);
      assert !leaf.blocks[index].locked;
      if leaf.blocks[index].free {
        return index;
      }
    }
    forall s | 0 <= s < |leaf.blocks|
      ensures !leaf.blocks[s].free
    {
      assert Probed(seed, cfg.bits, s);
    }
    slot := -1;
  }

  method CountUsed(blocks: seq<Block>) returns (used: nat)
    ensures used == Used(blocks)
  {
    used := 0;
    assert blocks[..0] == [];
    for i := 0 to |blocks|
      invariant used == Used(blocks[..i])
    {
      assert blocks[..i + 1][..i] == blocks[..i];
      if !blocks[i].free {
        used := used + 1;
      }
    }
    assert blocks[..|blocks|] == blocks;
  }

  /** With a watermark of the whole leaf, any `Bf` distinct keys fill the tree for ever: the insert of
      every further key fails and leaves the tree as full as it was. */
  method FullWatermarkGetsStuck(cfg: Config, root: Addr, keys: seq<Key>, extra: Key, value: Value)
      returns (index: FaunusIndex, ok: bool)
    requires cfg.Ok() && cfg.watermark == cfg.Bf() && |keys| == cfg.Bf() && extra < cfg.maxKey && extra !in keys
    requires forall i :: 0 <= i < |keys| ==> keys[i] < cfg.maxKey
    requires forall i, j :: 0 <= i < j < |keys| ==> keys[i] != keys[j]
    ensures index.Valid() && index.cfg == cfg && (forall k :: k in index.model <==> k in keys)
    ensures LeafFull(cfg, index.mem, extra) && !ok
  {
    hide TreeInv, TraceOk, CacheOk, Loads, UnlockedFrom, BlocksUnlocked, LeafFull, Between, FaunusIndex.Traced,
         Inserted, WillBeCut;
    index := new FaunusIndex.Initialize(cfg, root);
    assert keys[..0] == [];
    for i := 0 to |keys|
      invariant index.Valid() && index.cfg == cfg && fresh(index) && index.mem.nodes.Keys == {index.mem.root}
      invariant |index.model| == i && forall k :: k in index.model <==> k in keys[..i]
    {
      ghost var before := index.model;
      FewKeysLeaveRoom(cfg, index.mem, index.model, keys[i]);
      FullWatermarkNeverCuts(cfg, index.mem, index.model, keys[i]);
      NotYet(keys, i);
      var done, _ := index.Insert(keys[i], value, 0, Miss);
      assert index.model.Keys == before.Keys + {keys[i]};
    }
    assert keys[..|keys|] == keys;
    OneFullLeaf(cfg, index.mem, index.model, extra);
    var again, _ := index.Insert(extra, value, 0, Miss);
    ok := again;
    OneFullLeaf(cfg, index.mem, index.model, extra);
  }

  lemma NotYet(keys: seq<Key>, i: nat)
    requires i < |keys| && forall i, j :: 0 <= i < j < |keys| ==> keys[i] != keys[j]
    ensures keys[i] !in keys[..i] && forall k :: k in keys[..i + 1] <==> k in keys[..i] || k == keys[i]
  {
    assert keys[..i + 1] == keys[..i] + [keys[i]];
  }
}
