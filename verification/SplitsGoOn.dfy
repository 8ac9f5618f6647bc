/** The splitters of `ConcurrentSplits` never stand still, and cut a leaf exactly if it has more than half a
    node of keys, in the middle. */
module SplitsGoOn {
  import opened Bits
  import opened Fresh
  import opened FaunusNodes
  import opened FaunusStructure
  import opened FaunusContents
  import opened FaunusSteps
  import opened ManySplits
  import opened ConcurrentSplits

  // ---- The entries of a leaf ------------------------------------------------------------------------

  /** The keys of the abstract map in the fence of a node. */
  ghost function KeysIn(m: map<Key, Value>, n: Node): set<Key> {
    set k | k in m && n.Covers(k)
  }

  ghost function EntryKeys(es: seq<Entry>): set<Key> {
    set j: nat | j < |es| :: es[j].key
  }

  lemma {:induction false} EntriesCount(es: seq<Entry>)
    requires Sorted(es)
    ensures |EntryKeys(es)| == |es|
  {
    if es != [] {
      var n := |es| - 1;
      EntriesCount(es[..n]);
      assert EntryKeys(es) == EntryKeys(es[..n]) + {es[n].key};
    }
  }

  /** The entries of an exact leaf are the keys of its fence. */
  lemma EntriesAreKeys(items: map<Addr, Item>, m: map<Key, Value>, n: Node, es: seq<Entry>)
    requires n.Leaf? && Exact(items, m, n) && Gathered(items, n, |n.blocks|, es)
    ensures EntryKeys(es) == KeysIn(m, n) && |KeysIn(m, n)| == |es|
  {
    forall k | k in KeysIn(m, n)
      ensures k in EntryKeys(es)
    {
      assert Present(items, n, k);
      assert EntryFor(es, k);
    }
    EntriesInside(items, m, n, es);
    forall j: nat | j < |es|
      ensures es[j].key in m
    {
      assert FromBlock(items, n, |n.blocks|, es[j]);
      var i: nat :| i < |n.blocks| && Holds(items, n, i, es[j].key) && n.blocks[i] == es[j].block;
      assert BlockOk(items, m, n, i);
    }
    EntriesCount(es);
  }

  /** Where a new key enters the sorted entries. */
  lemma {:induction false} PlaceFor(es: seq<Entry>, k: Key) returns (at: nat)
    requires Sorted(es) && !EntryFor(es, k)
    ensures at <= |es| && (forall j :: 0 <= j < at ==> es[j].key < k) && forall j :: at <= j < |es| ==> k < es[j].key
  {
    at := |es|;
    if es != [] {
      var last := |es| - 1;
      assert es[last].key != k;
      if k < es[last].key {
        forall j | 0 <= j < last
          ensures es[..last][j].key != k
        {
          assert es[j].key != k;
        }
        at := PlaceFor(es[..last], k);
        assert forall j :: 0 <= j < last ==> es[..last][j] == es[j];
      }
    }
  }

  lemma {:induction false} GatherExists(items: map<Addr, Item>, m: map<Key, Value>, n: Node, i: nat)
      returns (es: seq<Entry>)
    requires n.Leaf? && i <= |n.blocks| && Sound(items, m, n) && Distinct(items, n)
    ensures Gathered(items, n, i, es) && LastWins(items, n, i, es) && |es| <= i
  {
    if i == 0 {
      return [];
    }
    hide Distinct, Gathered, LastWins, FaunusSteps.Entered;
    es := GatherExists(items, m, n, i - 1);
    assert BlockOk(items, m, n, i - 1);
    if n.blocks[i - 1].free {
      GatherSkip(items, n, i - 1, es);
    } else {
      var e := Entry(items[n.blocks[i - 1].addr].key, n.blocks[i - 1]);
      GatheredIsSorted(items, n, i - 1, es);
      NewKey(items, n, i - 1, es, e.key);
      var at := PlaceFor(es, e.key);
      var r := es[..at] + [e] + es[at..];
      EnteredSorted(es, e, at);
      GatherStep(items, n, i - 1, es, e, r, at);
      es := r;
    }
  }

  lemma EnteredSorted(es: seq<Entry>, e: Entry, at: nat)
    requires Sorted(es) && !EntryFor(es, e.key) && at <= |es|
    requires (forall j :: 0 <= j < at ==> es[j].key < e.key) && forall j :: at <= j < |es| ==> e.key < es[j].key
    ensures FaunusSteps.Entered(es, e, es[..at] + [e] + es[at..], at)
  {
  }

  /** What a splitter makes of a leaf with enough entries. */
  ghost function Part(es: seq<Entry>, from: nat, to: nat, size: nat): seq<Block>
    requires from <= to <= |es|
  {
    seq(size, i requires 0 <= i =>
      if from + i < to then es[from + i].block.(locked := false) else Block(0, 0, true, false))
  }

  lemma PartsExist(cfg: Config, n: Node, es: seq<Entry>) returns (l: Node, r: Node)
    requires n.Leaf? && 2 <= |es| <= cfg.Bf()
    ensures LeafParts(cfg, n, es, l, r)
  {
    var mid := |es| / 2;
    l := Leaf(n.lock, n.lo, es[mid].key, Part(es, 0, mid, cfg.Bf()));
    r := Leaf(0, es[mid].key, n.hi, Part(es, mid, |es|, cfg.Bf()));
  }

  // ---- Every splitter has a step ----------------------------------------------------------------------

  /** Thread `t` moves on. */
  ghost predicate Moves(cfg: Config, s: State, t: Thread, step: Step, s': State) {
    Next(cfg, s, step, s') && step.t == t && t in s.pcs && t in s'.pcs && s'.pcs[t] != s.pcs[t]
  }

  /** What is known of a splitter, apart from the forest. */
  lemma Knows(cfg: Config, s: State, t: Thread)
    requires Inv(cfg, s) && t in s.pcs
    ensures LocksOk(s) && HeldShared(s) && PcOk(cfg, s, s.pcs[t]) && cfg.Bf() >= 4
    ensures ReaderSafe(cfg, s.mem, s.model)
    ensures s.pcs[t].Locked() != [] ==> s.pcs[t].Locked()[|s.pcs[t].Locked()| - 1] in s.mem.nodes
  {
    LockFacts(s);
    ForestOk(cfg, Tree(s), Pends(s));
    if s.pcs[t].Locked() != [] {
      LastHeld(s, t);
    }
  }

  lemma NewAddress(s: State) returns (d: Addr)
    ensures d !in s.mem.nodes
  {
    FreshExists(s.mem.nodes.Keys);
    d :| d !in s.mem.nodes.Keys;
  }

  /** A search from a linked node comes to a linked node of any level below it. */
  lemma {:induction false} ReachesLevel(cfg: Config, s: State, a: Addr, level: nat, key: Key) returns (b: Addr)
    requires Inv(cfg, s) && Shared(s, a) && a in s.mem.nodes && level <= s.mem.nodes[a].Level()
    requires s.mem.nodes[a].lo <= key
    ensures Shared(s, b) && b in s.mem.nodes && s.mem.nodes[b].Level() == level && s.mem.nodes[b].lo <= key
    decreases s.mem.nodes[a].Level()
  {
    b := a;
    if level < s.mem.nodes[a].Level() {
      ChildBelow(cfg, s, a, key);
      hide Inv, Shared;
      b := ReachesLevel(cfg, s, Child(s.mem.nodes[a], key), level, key);
    }
  }

  lemma ChildBelow(cfg: Config, s: State, a: Addr, key: Key)
    requires Inv(cfg, s) && Shared(s, a) && a in s.mem.nodes && s.mem.nodes[a].Level() > 0
    requires s.mem.nodes[a].lo <= key
    ensures InnerShape(cfg, s.mem.nodes[a])
    ensures var n := s.mem.nodes[a]; var c := Child(n, key);
      Shared(s, c) && c in s.mem.nodes && s.mem.nodes[c].Level() + 1 == n.Level() && s.mem.nodes[c].lo <= key
  {
    var n := s.mem.nodes[a];
    assert Shape(cfg, n);
    SharedChild(cfg, s, a, key);
    SharedIsInTree(s, Child(n, key));
    assert WeakLinkOk(s.mem, n, Route(n, key));
    hide Inv;
    RouteBounds(cfg.Bf(), cfg.maxKey, n, key);
  }

  lemma SeekGoesOn(cfg: Config, s: State, t: Thread) returns (step: Step, s': State)
    requires Inv(cfg, s) && t in s.pcs && s.pcs[t].Seek?
    ensures Moves(cfg, s, t, step, s')
  {
    var pc := s.pcs[t];
    Knows(cfg, s, t);
    assert Shared(s, s.mem.root);
    SharedIsInTree(s, s.mem.root);
    if s.mem.nodes[s.mem.root].Level() < pc.todo.level {
      step, s' := NoLevel(t), Goto(s, t, Top(pc.held, pc.todo));
    } else {
      var a := ReachesLevel(cfg, s, s.mem.root, pc.todo.level, pc.todo.sep);
      hide Shared, Inv;
      step, s' := Find(t, a), Goto(s, t, Try(pc.held, pc.todo, a));
    }
  }

  lemma SkipGoesOn(cfg: Config, s: State, t: Thread, es: seq<Entry>) returns (step: Step, s': State)
    requires t in s.pcs && s.pcs[t].In? && s.pcs[t].image.Leaf? && |es| <= cfg.Bf() / 2
    requires Gathered(s.mem.items, s.pcs[t].image, |s.pcs[t].image.blocks|, es)
    ensures Moves(cfg, s, t, step, s')
  {
    hide Gathered;
    step, s' := Skip(t, es), Goto(s, t, Unwind(s.pcs[t].held));
  }

  lemma SplitGoesOn(cfg: Config, s: State, t: Thread, es: seq<Entry>, l: Node, r: Node) returns (step: Step, s': State)
    requires t in s.pcs && s.pcs[t].In? && s.pcs[t].image.Leaf? && |es| > cfg.Bf() / 2
    requires Gathered(s.mem.items, s.pcs[t].image, |s.pcs[t].image.blocks|, es)
    requires LeafParts(cfg, s.pcs[t].image, es, l, r)
    ensures Moves(cfg, s, t, step, s')
  {
    hide Gathered, LeafParts;
    var pc := s.pcs[t];
    var d := NewAddress(s);
    step := CutLeaf(t, es, l, d, r);
    s' := Store(Goto(s, t, Half(pc.held, pc.todo, l, d, Split(r.lo, d, 1))), d, r);
  }

  lemma LeafGoesOn(cfg: Config, s: State, t: Thread) returns (step: Step, s': State)
    requires Inv(cfg, s) && t in s.pcs && s.pcs[t].In? && |s.pcs[t].held| == 1
    ensures Moves(cfg, s, t, step, s')
  {
    var n := s.pcs[t].image;
    hide Inv, Gathered, LastWins, Exact, LeafParts, Moves;
    LeafImage(cfg, s, t);
    var es := GatherExists(s.mem.items, s.model, n, |n.blocks|);
    if |es| <= cfg.Bf() / 2 {
      step, s' := SkipGoesOn(cfg, s, t, es);
    } else {
      var l, r := PartsExist(cfg, n, es);
      step, s' := SplitGoesOn(cfg, s, t, es, l, r);
    }
  }

  lemma LeafImage(cfg: Config, s: State, t: Thread)
    requires Inv(cfg, s) && t in s.pcs && s.pcs[t].In? && |s.pcs[t].held| == 1
    ensures var n := s.pcs[t].image;
      && n.Leaf? && |n.blocks| == cfg.Bf() >= 4 && Sound(s.mem.items, s.model, n) && Distinct(s.mem.items, n)
      && Exact(s.mem.items, s.model, n) && s.pcs[t].held[0] in s.mem.nodes && s.mem.nodes[s.pcs[t].held[0]] == n
  {
    Knows(cfg, s, t);
    LastHeld(s, t);
    var a := s.pcs[t].held[0];
    assert Shape(cfg, s.mem.nodes[a]) && Exact(s.mem.items, s.model, s.mem.nodes[a]);
  }

  lemma RetreatGoesOn(cfg: Config, s: State, t: Thread) returns (step: Step, s': State)
    requires t in s.pcs && s.pcs[t].In? && s.pcs[t].todo.Split? && !s.pcs[t].image.Covers(s.pcs[t].todo.sep)
    requires s.pcs[t].held != [] && s.pcs[t].held[|s.pcs[t].held| - 1] in s.mem.nodes
    ensures Moves(cfg, s, t, step, s')
  {
    var pc := s.pcs[t];
    var a := pc.held[|pc.held| - 1];
    step := Retreat(t);
    s' := Store(Goto(s, t, Seek(pc.held[..|pc.held| - 1], pc.todo)), a,
                Relock(s.mem.nodes[a], Decremented(s.mem.nodes[a].lock)));
  }

  lemma EnterGoesOn(cfg: Config, s: State, t: Thread) returns (step: Step, s': State)
    requires t in s.pcs && s.pcs[t].In? && Fits(cfg, s.pcs[t].image, s.pcs[t].todo) && s.pcs[t].held != []
    requires s.pcs[t].image.last + 1 < cfg.Bf()
    ensures Moves(cfg, s, t, step, s')
  {
    var pc := s.pcs[t];
    step := Enter(t);
    s' := Store(Goto(s, t, Unwind(pc.held)), pc.held[|pc.held| - 1],
                FaunusRouting.WithEntry(pc.image, pc.todo.sep, pc.todo.right));
  }

  lemma CutGoesOn(cfg: Config, s: State, t: Thread) returns (step: Step, s': State)
    requires t in s.pcs && s.pcs[t].In? && Fits(cfg, s.pcs[t].image, s.pcs[t].todo)
    requires s.pcs[t].image.last + 1 == cfg.Bf()
    ensures Moves(cfg, s, t, step, s')
  {
    var pc := s.pcs[t];
    var d := NewAddress(s);
    var w, mid := Widened(pc.image, pc.todo), cfg.Bf() / 2;
    step := CutInner(t, d);
    var up := Split(w.keys[mid], d, w.height + 1);
    s' := Store(Goto(s, t, Half(pc.held, pc.todo, FaunusRouting.LeftHalf(w, mid), d, up)), d,
                FaunusRouting.RightHalf(w, mid));
  }

  lemma InsideIsThere(cfg: Config, s: State, t: Thread)
    requires Inv(cfg, s) && t in s.pcs && s.pcs[t].In? && |s.pcs[t].held| != 1
    ensures var pc := s.pcs[t];
      && pc.held != [] && pc.held[|pc.held| - 1] in s.mem.nodes && pc.todo.Split?
      && (pc.image.Covers(pc.todo.sep) ==> Fits(cfg, pc.image, pc.todo) && pc.image.last + 1 <= cfg.Bf())
  {
    Knows(cfg, s, t);
    var pc := s.pcs[t];
    if pc.image.Covers(pc.todo.sep) {
      NoDuplicate(cfg, s, t);
    }
  }

  lemma InnerGoesOn(cfg: Config, s: State, t: Thread) returns (step: Step, s': State)
    requires Inv(cfg, s) && t in s.pcs && s.pcs[t].In? && |s.pcs[t].held| != 1
    ensures Moves(cfg, s, t, step, s')
  {
    hide Inv, Moves, Fits;
    InsideIsThere(cfg, s, t);
    var pc := s.pcs[t];
    if !pc.image.Covers(pc.todo.sep) {
      step, s' := RetreatGoesOn(cfg, s, t);
    } else if FitsLast(cfg, pc.image, pc.todo) + 1 < cfg.Bf() {
      step, s' := EnterGoesOn(cfg, s, t);
    } else {
      step, s' := CutGoesOn(cfg, s, t);
    }
  }

  function FitsLast(cfg: Config, n: Node, p: Pending): (last: nat)
    requires Fits(cfg, n, p)
    ensures n.Inner? && last == n.last
  {
    n.last
  }

  lemma TryGoesOn(cfg: Config, s: State, t: Thread) returns (step: Step, s': State)
    requires t in s.pcs && s.pcs[t].Try? && s.pcs[t].node in s.mem.nodes
    ensures Moves(cfg, s, t, step, s')
  {
    var pc := s.pcs[t];
    var a := pc.node;
    step := Cas(t);
    s' := if s.mem.nodes[a].lock == 0 then Store(Goto(s, t, Took(pc.held, pc.todo, a)), a, Relock(s.mem.nodes[a], 1))
          else Goto(s, t, Seek(pc.held, pc.todo));
  }

  lemma ReleaseGoesOn(cfg: Config, s: State, t: Thread) returns (step: Step, s': State)
    requires t in s.pcs && s.pcs[t].Unwind?
    requires s.pcs[t].held != [] ==> s.pcs[t].held[|s.pcs[t].held| - 1] in s.mem.nodes
    ensures Moves(cfg, s, t, step, s')
  {
    var held := s.pcs[t].held;
    if held == [] {
      step, s' := Finish(t), Goto(s, t, Off);
    } else {
      var a := held[|held| - 1];
      step := Release(t);
      s' := Store(Goto(s, t, Unwind(held[..|held| - 1])), a, Relock(s.mem.nodes[a], Decremented(s.mem.nodes[a].lock)));
    }
  }

  lemma ReadGoesOn(cfg: Config, s: State, t: Thread) returns (step: Step, s': State)
    requires t in s.pcs && s.pcs[t].Took? && s.pcs[t].node in s.mem.nodes
    ensures Moves(cfg, s, t, step, s')
  {
    var pc := s.pcs[t];
    step, s' := Read(t), Goto(s, t, In(pc.held + [pc.node], pc.todo, s.mem.nodes[pc.node]));
  }

  lemma WriteGoesOn(cfg: Config, s: State, t: Thread) returns (step: Step, s': State)
    requires t in s.pcs && s.pcs[t].Half? && s.pcs[t].held != []
    ensures Moves(cfg, s, t, step, s')
  {
    var pc := s.pcs[t];
    step, s' := WriteBack(t), Store(Goto(s, t, Seek(pc.held, pc.up)), pc.held[|pc.held| - 1], pc.image);
  }

  /** What a thread is about to access is there. */
  lemma WayIsThere(cfg: Config, s: State, t: Thread)
    requires Inv(cfg, s) && t in s.pcs
    ensures var pc := s.pcs[t];
      && (pc.Try? || pc.Took? ==> pc.node in s.mem.nodes)
      && (pc.Half? ==> pc.held != [])
      && (pc.Unwind? && pc.held != [] ==> pc.held[|pc.held| - 1] in s.mem.nodes)
  {
    Knows(cfg, s, t);
    hide Inv, LocksOk, HeldShared, ReaderSafe;
    if s.pcs[t].Try? {
      SharedIsInTree(s, s.pcs[t].node);
    }
  }

  lemma OnTheWay(cfg: Config, s: State, t: Thread) returns (step: Step, s': State)
    requires Inv(cfg, s) && t in s.pcs && (s.pcs[t].Try? || s.pcs[t].Took? || s.pcs[t].Half? || s.pcs[t].Unwind?)
    ensures Moves(cfg, s, t, step, s')
  {
    hide Inv, Moves;
    WayIsThere(cfg, s, t);
    match s.pcs[t]
    case Try(_, _, _) => step, s' := TryGoesOn(cfg, s, t);
    case Took(_, _, _) => step, s' := ReadGoesOn(cfg, s, t);
    case Half(_, _, _, _, _) => step, s' := WriteGoesOn(cfg, s, t);
    case Unwind(_) => step, s' := ReleaseGoesOn(cfg, s, t);
  }

  lemma TopGoesOn(cfg: Config, s: State, t: Thread) returns (step: Step, s': State)
    requires t in s.pcs && s.pcs[t].Top? && s.pcs[t].todo.Split? && cfg.Bf() >= 2
    ensures Moves(cfg, s, t, step, s')
  {
    var pc := s.pcs[t];
    var d := NewAddress(s);
    step := ConcurrentSplits.NewRoot(t, d);
    s' := Store(Goto(s, t, Grow(pc.held, pc.todo, d)), d, FaunusStructure.NewRoot(cfg, s.mem.root, pc.todo));
  }

  lemma GrowGoesOn(cfg: Config, s: State, t: Thread) returns (step: Step, s': State)
    requires t in s.pcs && s.pcs[t].Grow?
    ensures Moves(cfg, s, t, step, s')
  {
    var pc := s.pcs[t];
    step, s' := ReadRoot(t), Goto(s, t, Swap(pc.held, pc.todo, pc.spare, s.mem.root));
  }

  lemma SwapGoesOn(cfg: Config, s: State, t: Thread) returns (step: Step, s': State)
    requires t in s.pcs && s.pcs[t].Swap?
    ensures Moves(cfg, s, t, step, s')
  {
    var pc := s.pcs[t];
    step := CasRoot(t);
    s' := Goto(s, t, Unwind(pc.held)).(mem := if s.mem.root == pc.seen then s.mem.(root := pc.spare) else s.mem);
  }

  lemma TopIsThere(cfg: Config, s: State, t: Thread)
    requires Inv(cfg, s) && t in s.pcs && s.pcs[t].Top?
    ensures s.pcs[t].todo.Split? && cfg.Bf() >= 2
  {
    Knows(cfg, s, t);
  }

  lemma AtTheTop(cfg: Config, s: State, t: Thread) returns (step: Step, s': State)
    requires Inv(cfg, s) && t in s.pcs && (s.pcs[t].Top? || s.pcs[t].Grow? || s.pcs[t].Swap?)
    ensures Moves(cfg, s, t, step, s')
  {
    hide Inv, Moves;
    if s.pcs[t].Top? {
      TopIsThere(cfg, s, t);
      step, s' := TopGoesOn(cfg, s, t);
    } else if s.pcs[t].Grow? {
      step, s' := GrowGoesOn(cfg, s, t);
    } else {
      step, s' := SwapGoesOn(cfg, s, t);
    }
  }

  /** In every run an unfinished splitter can always take one more step that brings it to another point,
      whatever the others do: a lock that is held sends it back to its search. */
  lemma SplitterMoves(cfg: Config, run: seq<State>, steps: seq<Step>, i: nat, t: Thread)
      returns (step: Step, s': State)
    requires Run(cfg, run, steps) && i < |run| && t in run[i].pcs && run[i].pcs[t] != Off
    ensures Moves(cfg, run[i], t, step, s')
  {
    RunInv(cfg, run, steps, i);
    hide Run, Inv, Moves;
    var s := run[i];
    var pc := s.pcs[t];
    if pc.Seek? {
      step, s' := SeekGoesOn(cfg, s, t);
    } else if pc.In? && |pc.held| == 1 {
      step, s' := LeafGoesOn(cfg, s, t);
    } else if pc.In? {
      step, s' := InnerGoesOn(cfg, s, t);
    } else if pc.Top? || pc.Grow? || pc.Swap? {
      step, s' := AtTheTop(cfg, s, t);
    } else {
      step, s' := OnTheWay(cfg, s, t);
    }
  }

  // ---- What the steps decide ----------------------------------------------------------------------------

  /** In every run a splitter lets go of a leaf exactly if at most half a node of keys of the map lie in its
      fence; otherwise it cuts, so that the lower half of these keys, rounded down, stays on the left. */
  lemma LeafDecision(cfg: Config, run: seq<State>, steps: seq<Step>, i: nat)
    requires Run(cfg, run, steps) && i < |steps| && (steps[i].Skip? || steps[i].CutLeaf?)
    ensures var s, t := run[i], steps[i].t;
      && t in s.pcs && s.pcs[t].In? && s.pcs[t].image.Leaf?
      && var n := |KeysIn(s.model, s.pcs[t].image)|;
      && (steps[i].CutLeaf? <==> 2 * n > cfg.Bf())
      && (steps[i].CutLeaf? ==>
          && |KeysIn(s.model, steps[i].left)| == n / 2 && |KeysIn(s.model, steps[i].right)| == n - n / 2
          && forall k, u :: k in KeysIn(s.model, steps[i].left) && u in KeysIn(s.model, steps[i].right) ==> k < u)
  {
    RunInv(cfg, run, steps, i);
    assert Next(cfg, run[i], steps[i], run[i + 1]);
    hide Run, Inv;
    LeafDecides(cfg, run[i], steps[i], run[i + 1]);
  }

  lemma LeafDecides(cfg: Config, s: State, step: Step, s': State)
    requires Inv(cfg, s) && Next(cfg, s, step, s') && (step.Skip? || step.CutLeaf?)
    ensures step.t in s.pcs && s.pcs[step.t].In? && s.pcs[step.t].image.Leaf?
    ensures var n := |KeysIn(s.model, s.pcs[step.t].image)|;
      && (step.CutLeaf? <==> 2 * n > cfg.Bf())
      && (step.CutLeaf? ==>
          && |KeysIn(s.model, step.left)| == n / 2 && |KeysIn(s.model, step.right)| == n - n / 2
          && forall k, u :: k in KeysIn(s.model, step.left) && u in KeysIn(s.model, step.right) ==> k < u)
  {
    var t := step.t;
    var n := s.pcs[t].image;
    OneHeld(cfg, s, t);
    LeafImage(cfg, s, t);
    BfFacts(cfg);
    hide Inv, Exact, Gathered;
    EntriesAreKeys(s.mem.items, s.model, n, step.es);
    if step.CutLeaf? {
      hide LeafParts, KeysIn;
      PartKeys(cfg, s, n, step.es, step.left, step.right);
    }
  }

  lemma OneHeld(cfg: Config, s: State, t: Thread)
    requires Inv(cfg, s) && t in s.pcs && s.pcs[t].In? && s.pcs[t].image.Leaf?
    ensures |s.pcs[t].held| == 1 && cfg.Ok()
  {
    Knows(cfg, s, t);
    LastHeld(s, t);
  }

  lemma Sides(cfg: Config, n: Node, es: seq<Entry>, l: Node, r: Node)
    requires Sorted(es) && LeafParts(cfg, n, es, l, r) && forall j :: 0 <= j < |es| ==> n.Covers(es[j].key)
    ensures n.lo == l.lo && l.hi == r.lo && r.hi == n.hi && l.hi <= n.hi && n.lo <= r.lo
    ensures forall j :: 0 <= j < |es| ==>
      (l.Covers(es[j].key) <==> j < |es| / 2) && (r.Covers(es[j].key) <==> |es| / 2 <= j)
  {
    hide PartOf;
    var mid := |es| / 2;
    forall j | 0 <= j < |es|
      ensures (l.Covers(es[j].key) <==> j < mid) && (r.Covers(es[j].key) <==> mid <= j)
    {
      assert j < mid ==> es[j].key < es[mid].key;
      assert mid < j ==> es[mid].key < es[j].key;
    }
    assert n.Covers(es[mid].key);
  }

  lemma PartKeys(cfg: Config, s: State, n: Node, es: seq<Entry>, l: Node, r: Node)
    requires n.Leaf? && Exact(s.mem.items, s.model, n) && Gathered(s.mem.items, n, |n.blocks|, es)
    requires LeafParts(cfg, n, es, l, r) && EntryKeys(es) == KeysIn(s.model, n)
    ensures |KeysIn(s.model, l)| == |es| / 2 && |KeysIn(s.model, r)| == |es| - |es| / 2
    ensures forall k, u :: k in KeysIn(s.model, l) && u in KeysIn(s.model, r) ==> k < u
  {
    hide LeafParts, KeysIn, EntryKeys;
    var mid := |es| / 2;
    GatheredIsSorted(s.mem.items, n, |n.blocks|, es);
    EntriesInside(s.mem.items, s.model, n, es);
    hide Exact, Gathered;
    Sides(cfg, n, es, l, r);
    EntriesCount(es[..mid]);
    EntriesCount(es[mid..]);
    Below(s.model, n, es, l, 0, mid);
    Below(s.model, n, es, r, mid, |es|);
    assert es[0..mid] == es[..mid] && es[mid..|es|] == es[mid..];
    LeftBelowRight(s.model, l, r);
  }

  lemma LeftBelowRight(m: map<Key, Value>, l: Node, r: Node)
    requires l.hi == r.lo
    ensures forall k, u :: k in KeysIn(m, l) && u in KeysIn(m, r) ==> k < u
  {
  }

  lemma Below(m: map<Key, Value>, n: Node, es: seq<Entry>, l: Node, from: nat, to: nat)
    requires Sorted(es) && from <= to <= |es| && EntryKeys(es) == KeysIn(m, n) && n.lo <= l.lo && l.hi <= n.hi
    requires forall j :: 0 <= j < |es| ==> (l.Covers(es[j].key) <==> from <= j < to)
    ensures KeysIn(m, l) == EntryKeys(es[from..to])
  {
    forall k | k in KeysIn(m, l)
      ensures k in EntryKeys(es[from..to])
    {
      assert k in EntryKeys(es);
      var j: nat :| j < |es| && es[j].key == k;
      assert es[from..to][j - from].key == k;
    }
    forall k | k in EntryKeys(es[from..to])
      ensures k in KeysIn(m, l)
    {
      var j: nat :| j < to - from && es[from..to][j].key == k;
      assert es[from + j].key in EntryKeys(es);
    }
  }

  /** A full inner node is cut in the middle, the middle separator moving up between the halves. */
  lemma InnerDecision(cfg: Config, run: seq<State>, steps: seq<Step>, i: nat)
    requires Run(cfg, run, steps) && i < |steps| && (steps[i].Enter? || steps[i].CutInner?)
    ensures var s, t := run[i], steps[i].t;
      && t in s.pcs && s.pcs[t].In? && s.pcs[t].image.Inner?
      && (steps[i].CutInner? <==> s.pcs[t].image.last + 1 == cfg.Bf())
      && (steps[i].CutInner? ==>
          && t in run[i + 1].pcs && run[i + 1].pcs[t].Half? && run[i + 1].pcs[t].image.Inner?
          && steps[i].node in run[i + 1].mem.nodes && run[i + 1].mem.nodes[steps[i].node].Inner?
          && 2 * run[i + 1].pcs[t].image.last == cfg.Bf()
          && 2 * (run[i + 1].mem.nodes[steps[i].node].last + 1) == cfg.Bf())
  {
    RunInv(cfg, run, steps, i);
    assert Next(cfg, run[i], steps[i], run[i + 1]);
    hide Run, Inv;
    InnerDecides(cfg, run[i], steps[i], run[i + 1]);
  }

  lemma InnerDecides(cfg: Config, s: State, step: Step, s': State)
    requires Inv(cfg, s) && Next(cfg, s, step, s') && (step.Enter? || step.CutInner?)
    ensures var t := step.t;
      && t in s.pcs && s.pcs[t].In? && s.pcs[t].image.Inner?
      && (step.CutInner? <==> s.pcs[t].image.last + 1 == cfg.Bf())
      && (step.CutInner? ==>
          && t in s'.pcs && s'.pcs[t].Half? && s'.pcs[t].image.Inner?
          && step.node in s'.mem.nodes && s'.mem.nodes[step.node].Inner?
          && 2 * s'.pcs[t].image.last == cfg.Bf()
          && 2 * (s'.mem.nodes[step.node].last + 1) == cfg.Bf())
  {
    RootedOk(cfg, s);
    BfFacts(cfg);
    hide Inv;
    if step.Enter? {
      assert TreeMove(cfg, s, step, s');
    } else {
      assert AddMove(cfg, s, step, s');
      hide Next;
      CutDecides(cfg, s, step, s');
    }
  }

  lemma CutDecides(cfg: Config, s: State, step: Step, s': State)
    requires AddMove(cfg, s, step, s') && step.CutInner? && cfg.Bf() % 2 == 0
    ensures var t := step.t;
      && t in s.pcs && s.pcs[t].In? && s.pcs[t].image.Inner? && s.pcs[t].image.last + 1 == cfg.Bf()
      && t in s'.pcs && s'.pcs[t].Half? && s'.pcs[t].image.Inner?
      && step.node in s'.mem.nodes && s'.mem.nodes[step.node].Inner?
      && 2 * s'.pcs[t].image.last == cfg.Bf()
      && 2 * (s'.mem.nodes[step.node].last + 1) == cfg.Bf()
  {
  }

  lemma RootedOk(cfg: Config, s: State)
    requires Inv(cfg, s)
    ensures cfg.Ok()
  {
  }

  // ---- Clients beside them --------------------------------------------------------------------------------

  lemma UpsertGoesOn(s: State, cfg: Config, t: Thread, a: Addr, j: nat, it: Item) returns (step: Step, s': State)
    requires t in s.pcs && s.pcs[t] == Off && Shared(s, a) && !Frozen(s, a) && a in s.mem.nodes
    requires s.mem.nodes[a].Leaf? && s.mem.nodes[a].Covers(it.key) && j < |s.mem.nodes[a].blocks|
    requires if it.key in s.model then Holds(s.mem.items, s.mem.nodes[a], j, it.key) else s.mem.nodes[a].blocks[j].free
    ensures Next(cfg, s, step, s') && step.Upsert? && step.t == t && step.node == a && step.it == it
    ensures s'.model == s.model[it.key := it.value]
  {
    hide Shared, Frozen, Holds;
    FreshExists(s.mem.items.Keys);
    var x: Addr :| x !in s.mem.items.Keys;
    step := Upsert(t, a, j, x, it);
    s' := s.(mem := Put(s.mem.(items := s.mem.items[x := it]), a, WithBlock(s.mem.nodes[a], j, it.key, x)),
             model := s.model[it.key := it.value]);
    assert ClientMove(cfg, s, step, s');
    hide LockMove, QuietMove, AddMove, TreeMove, ClientMove;
  }

  /** In every run a client can insert or update a key at any linked leaf that covers it and is not frozen,
      if the key is there or a block is free. */
  lemma ClientMoves(cfg: Config, run: seq<State>, steps: seq<Step>, i: nat, t: Thread, a: Addr, it: Item)
      returns (step: Step, s': State)
    requires Run(cfg, run, steps) && i < |run| && t in run[i].pcs && run[i].pcs[t] == Off
    requires Shared(run[i], a) && !Frozen(run[i], a) && a in run[i].mem.nodes
    requires run[i].mem.nodes[a].Leaf? && run[i].mem.nodes[a].Covers(it.key)
    requires it.key in run[i].model || Used(run[i].mem.nodes[a].blocks) < |run[i].mem.nodes[a].blocks|
    ensures Next(cfg, run[i], step, s') && step.Upsert? && step.t == t && step.node == a && step.it == it
    ensures s'.model == run[i].model[it.key := it.value]
  {
    RunInv(cfg, run, steps, i);
    InvIsSafe(cfg, run[i]);
    hide Run, Inv, Shared, Frozen, Next;
    var s := run[i];
    var n := s.mem.nodes[a];
    assert Exact(s.mem.items, s.model, n);
    var j: nat;
    if it.key in s.model {
      assert Present(s.mem.items, n, it.key);
      j :| Holds(s.mem.items, n, j, it.key);
    } else {
      FreeSlot(n.blocks);
      j :| j < |n.blocks| && n.blocks[j].free;
    }
    hide ReaderSafe;
    step, s' := UpsertGoesOn(s, cfg, t, a, j, it);
  }

  /** An unlocked linked leaf can be taken by any idle thread. */
  lemma LeafCanBeTaken(cfg: Config, s: State, t: Thread, a: Addr) returns (s': State)
    requires t in s.pcs && s.pcs[t] == Off && Shared(s, a) && a in s.mem.nodes && s.mem.nodes[a].Leaf?
    requires s.mem.nodes[a].lock == 0
    ensures Next(cfg, s, TryLeaf(t, a), s') && s'.pcs[t] == Took([], NoSplit, a)
  {
    s' := Store(Goto(s, t, Took([], NoSplit, a)), a, Relock(s.mem.nodes[a], 1));
  }
}
