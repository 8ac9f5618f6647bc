/** Readers that run while a client changes the tree: each of their reads may fall between any
    two remote memory operations of that client, and other operations may come in between. */
module FaunusReaders {
  import opened Bits
  import opened FaunusNodes
  import opened FaunusStructure
  import opened FaunusContents
  import opened FaunusSteps

  /** A node read: its moment, as an index into the trace, and its address. */
  datatype Visit = Visit(time: nat, addr: Addr)

  /** The read of an inner node at `u` sends the search for `key` on to `v`, at some later moment. */
  ghost predicate SentTo(cfg: Config, t: seq<Snapshot>, key: Key, u: Visit, v: Visit) {
    && u.time <= v.time < |t| && u.addr in t[u.time].mem.nodes
    && var n := t[u.time].mem.nodes[u.addr];
    && InnerShape(cfg, n) && v.addr == Child(n, key)
  }

  /** A node where a search may begin: it is there at moment `start` and does not begin above the key.
      The root is one, and so is any node that was read into a cache at that moment for this key. */
  ghost predicate Begins(t: seq<Snapshot>, key: Key, start: nat, a: Addr) {
    start < |t| && a in t[start].mem.nodes && t[start].mem.nodes[a].lo <= key
  }

  /** The search for `key` begins at a node known from moment `start` and then reads, at later and later
      moments, the nodes it is sent to. A search from a cached image has its first visit at `start`. */
  ghost predicate Search(cfg: Config, t: seq<Snapshot>, key: Key, start: nat, vs: seq<Visit>) {
    && vs != []
    && var v := vs[|vs| - 1];
    && (if |vs| == 1 then start <= v.time < |t| && Begins(t, key, start, v.addr)
        else Search(cfg, t, key, start, vs[..|vs| - 1]) && SentTo(cfg, t, key, vs[|vs| - 2], v))
  }

  /** The level a search begins on. */
  ghost function FirstLevel(t: seq<Snapshot>, start: nat, vs: seq<Visit>): nat {
    if vs != [] && start < |t| && vs[0].addr in t[start].mem.nodes then t[start].mem.nodes[vs[0].addr].Level() else 0
  }

  lemma RootBegins(cfg: Config, t: seq<Snapshot>, key: Key, start: nat)
    requires TraceOk(cfg, t) && start < |t|
    ensures Begins(t, key, start, t[start].mem.root)
  {
    TraceAt(cfg, t, start);
  }

  /** So does every node cached at an earlier moment that covered the key. */
  lemma CachedBegins(t: seq<Snapshot>, key: Key, c: CacheSlot)
    requires CachedEarlier(t, c, key)
    ensures exists start: nat :: Begins(t, key, start, c.addr) && t[start].mem.nodes[c.addr] == c.node
  {
    var j: nat :| j < |t| && c.addr in t[j].mem.nodes && t[j].mem.nodes[c.addr] == c.node;
    assert Begins(t, key, j, c.addr);
  }

  /** At the visit there is a node of the level that does not start above the key. */
  ghost predicate SafeAt(cfg: Config, t: seq<Snapshot>, key: Key, v: Visit, level: nat) {
    && v.time < |t| && v.addr in t[v.time].mem.nodes
    && var n := t[v.time].mem.nodes[v.addr];
    && Shape(cfg, n) && n.lo <= key && n.Level() == level
  }

  lemma StillSafe(cfg: Config, t: seq<Snapshot>, key: Key, a: Addr, level: nat, i: nat, j: nat)
    requires TraceOk(cfg, t) && i <= j < |t| && SafeAt(cfg, t, key, Visit(i, a), level)
    ensures SafeAt(cfg, t, key, Visit(j, a), level)
  {
    TraceEvolves(cfg, t, i, j);
    assert NodeGrows(t[i].mem, t[j].mem, a);
    TraceAt(cfg, t, j);
  }

  lemma BeginIsSafe(cfg: Config, t: seq<Snapshot>, key: Key, start: nat, a: Addr)
    requires TraceOk(cfg, t) && Begins(t, key, start, a)
    ensures SafeAt(cfg, t, key, Visit(start, a), t[start].mem.nodes[a].Level())
  {
    TraceAt(cfg, t, start);
  }

  lemma StepIsSafe(cfg: Config, t: seq<Snapshot>, key: Key, u: Visit, v: Visit, level: nat)
    requires TraceOk(cfg, t) && SafeAt(cfg, t, key, u, level) && SentTo(cfg, t, key, u, v)
    ensures level > 0 && SafeAt(cfg, t, key, v, level - 1)
  {
    hide TraceOk;
    TraceAt(cfg, t, u.time);
    var g := t[u.time].mem;
    var n := g.nodes[u.addr];
    RouteBounds(cfg.Bf(), cfg.maxKey, n, key);
    assert WeakLinkOk(g, g.nodes[u.addr], Route(n, key));
    assert SafeAt(cfg, t, key, Visit(u.time, v.addr), level - 1);
    StillSafe(cfg, t, key, v.addr, level - 1, u.time, v.time);
  }

  /** Wherever a search is, there is a node that does not start above the key, and each visit is
      one level below the visit before. */
  lemma {:induction false} SearchIsSafe(cfg: Config, t: seq<Snapshot>, key: Key, start: nat, vs: seq<Visit>)
    requires TraceOk(cfg, t) && Search(cfg, t, key, start, vs)
    ensures start < |t| && |vs| - 1 <= FirstLevel(t, start, vs)
    ensures SafeAt(cfg, t, key, vs[|vs| - 1], FirstLevel(t, start, vs) + 1 - |vs|)
  {
    hide TraceOk, SafeAt, SentTo;
    if |vs| == 1 {
      BeginIsSafe(cfg, t, key, start, vs[0].addr);
      StillSafe(cfg, t, key, vs[0].addr, FirstLevel(t, start, vs), start, vs[0].time);
      assert vs[0] == Visit(vs[0].time, vs[0].addr);
    } else {
      var us := vs[..|vs| - 1];
      SearchIsSafe(cfg, t, key, start, us);
      assert us[|us| - 1] == vs[|vs| - 2] && FirstLevel(t, start, us) == FirstLevel(t, start, vs);
      StepIsSafe(cfg, t, key, vs[|vs| - 2], vs[|vs| - 1], FirstLevel(t, start, us) + 1 - |us|);
    }
  }

  /** Whatever the client does in between, also in the middle of a split of the very nodes the
      search passes, a search that reaches a leaf either finds there exactly the entry that the
      abstract map has for the key at that moment, or sees that the fence does not cover the key
      and starts again.  It never takes a present key for absent. */
  lemma ReaderAnswersCorrectly(cfg: Config, t: seq<Snapshot>, key: Key, start: nat, vs: seq<Visit>)
    requires TraceOk(cfg, t) && Search(cfg, t, key, start, vs)
    ensures var v := vs[|vs| - 1];
      && v.time < |t| && v.addr in t[v.time].mem.nodes
      && var s := t[v.time]; var n := s.mem.nodes[v.addr];
      && (n.Leaf? && n.Covers(key) ==>
            && (Present(s.mem.items, n, key) <==> key in s.model)
            && (forall i: nat :: Holds(s.mem.items, n, i, key) ==> s.mem.items[n.blocks[i].addr].value == s.model[key]))
  {
    hide TraceOk;
    var v := vs[|vs| - 1];
    SearchIsSafe(cfg, t, key, start, vs);
    TraceAt(cfg, t, v.time);
    var s := t[v.time];
    var n := s.mem.nodes[v.addr];
    assert Exact(s.mem.items, s.model, n);
    if n.Leaf? && n.Covers(key) {
      forall i: nat | Holds(s.mem.items, n, i, key)
        ensures key in s.model && s.mem.items[n.blocks[i].addr].value == s.model[key]
      {
        assert BlockOk(s.mem.items, s.model, n, i);
      }
    }
  }

  /** A search that stands at an inner node can always go on, at any later moment, and it stands at
      a leaf after one visit for each level from the node it began at. */
  lemma ReaderGoesOn(cfg: Config, t: seq<Snapshot>, key: Key, start: nat, vs: seq<Visit>, time: nat)
    requires TraceOk(cfg, t) && Search(cfg, t, key, start, vs) && vs[|vs| - 1].time <= time < |t|
    ensures var v := vs[|vs| - 1];
      && v.addr in t[v.time].mem.nodes && start < |t|
      && (if |vs| <= FirstLevel(t, start, vs) then
            && InnerShape(cfg, t[v.time].mem.nodes[v.addr])
            && Search(cfg, t, key, start, vs + [Visit(time, Child(t[v.time].mem.nodes[v.addr], key))])
          else t[v.time].mem.nodes[v.addr].Leaf?)
  {
    hide TraceOk;
    SearchIsSafe(cfg, t, key, start, vs);
    var v := vs[|vs| - 1];
    if |vs| <= FirstLevel(t, start, vs) {
      var next := Visit(time, Child(t[v.time].mem.nodes[v.addr], key));
      assert SentTo(cfg, t, key, v, next);
      hide SentTo, SafeAt, Child;
      OneMoreVisit(cfg, t, key, start, vs, next);
    }
  }

  lemma OneMoreVisit(cfg: Config, t: seq<Snapshot>, key: Key, start: nat, vs: seq<Visit>, v: Visit)
    requires Search(cfg, t, key, start, vs) && SentTo(cfg, t, key, vs[|vs| - 1], v)
    ensures Search(cfg, t, key, start, vs + [v])
  {
    hide SentTo;
    var ws := vs + [v];
    assert ws[..|ws| - 1] == vs && ws[|ws| - 2] == vs[|vs| - 1];
  }

  // ---- Items read later than the leaf -------------------------------------------------------------

  /** A reader at a leaf that covers the key looks at the used blocks with the key's fingerprint and reads
      the item of block `i` at moment `when[i]`. */
  ghost predicate Candidate(n: Node, key: Key, i: nat) {
    n.Leaf? && i < |n.blocks| && !n.blocks[i].free && n.blocks[i].fp == Fp(key)
  }

  /** The item read shows the key. */
  ghost predicate Sees(t: seq<Snapshot>, n: Node, key: Key, when: seq<nat>, i: nat) {
    && Candidate(n, key, i) && i < |when| && when[i] < |t|
    && var items := t[when[i]].mem.items;
    n.blocks[i].addr in items && items[n.blocks[i].addr].key == key
  }

  /** None of the items is freed before it is read. */
  ghost predicate ReadInTime(t: seq<Snapshot>, n: Node, key: Key, time: nat, when: seq<nat>) {
    n.Leaf? && |when| == |n.blocks| && forall i: nat :: Candidate(n, key, i) ==>
      time <= when[i] < |t| && NotFreed(t, time, when[i], n.blocks[i].addr)
  }

  lemma SeesIsHolds(cfg: Config, t: seq<Snapshot>, n: Node, key: Key, time: nat, when: seq<nat>, i: nat)
    requires TraceOk(cfg, t) && time < |t| && ReadInTime(t, n, key, time, when) && Candidate(n, key, i)
    ensures Sees(t, n, key, when, i) <==> Holds(t[time].mem.items, n, i, key)
    ensures n.blocks[i].addr in t[time].mem.items && n.blocks[i].addr in t[when[i]].mem.items
    ensures t[when[i]].mem.items[n.blocks[i].addr] == t[time].mem.items[n.blocks[i].addr]
  {
    hide TraceOk;
    ItemStays(cfg, t, time, when[i], n.blocks[i].addr);
  }

  /** The same when the items are read after the leaf, at any later moments, as long as none of them is
      freed in between: the reader sees the key exactly if the abstract map had it when the leaf was read,
      and then with its value. */
  lemma LateItemsAnswerCorrectly(cfg: Config, t: seq<Snapshot>, key: Key, start: nat, vs: seq<Visit>, when: seq<nat>)
    requires TraceOk(cfg, t) && Search(cfg, t, key, start, vs)
    requires var v := vs[|vs| - 1];
      v.time < |t| && v.addr in t[v.time].mem.nodes && ReadInTime(t, t[v.time].mem.nodes[v.addr], key, v.time, when)
    ensures var v := vs[|vs| - 1]; var s := t[v.time]; var n := s.mem.nodes[v.addr];
      n.Covers(key) ==>
        && ((exists i: nat :: Sees(t, n, key, when, i)) <==> key in s.model)
        && (forall i: nat :: Sees(t, n, key, when, i) ==> t[when[i]].mem.items[n.blocks[i].addr].value == s.model[key])
  {
    hide TraceOk;
    var v := vs[|vs| - 1];
    hide Search;
    ReaderAnswersCorrectly(cfg, t, key, start, vs);
    TraceAt(cfg, t, v.time);
    var s := t[v.time];
    var n := s.mem.nodes[v.addr];
    assert Exact(s.mem.items, s.model, n);
    if n.Covers(key) {
      forall i: nat | Sees(t, n, key, when, i)
        ensures Holds(s.mem.items, n, i, key)
        ensures t[when[i]].mem.items[n.blocks[i].addr] == s.mem.items[n.blocks[i].addr]
      {
        SeesIsHolds(cfg, t, n, key, v.time, when, i);
      }
      if key in s.model {
        var i: nat :| Holds(s.mem.items, n, i, key);
        assert BlockOk(s.mem.items, s.model, n, i) && Candidate(n, key, i);
        SeesIsHolds(cfg, t, n, key, v.time, when, i);
        assert Sees(t, n, key, when, i);
      }
    }
  }
}
