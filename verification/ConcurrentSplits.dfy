/** Any number of splitters at work on one tree, with clients that insert and update beside them: one
    step is one remote memory operation of one thread.  Every state of every run is safe for readers,
    and the node locks behave as the step system of `SplitLocks` says. */
module ConcurrentSplits {
  import opened Bits
  import opened FaunusNodes
  import opened FaunusRouting
  import opened FaunusStructure
  import opened FaunusContents
  import opened FaunusSteps
  import opened ManySplits
  import SplitLocks
  import FaunusReaders

  /** `held` are the nodes a splitter has locked, from its leaf upwards, and `todo` is the separator of its
      last cut, which a node one level above that cut must take. */
  datatype Pc =
    | Off
    | Seek(held: seq<Addr>, todo: Pending)                   // looks for the node that takes the separator
    | Try(held: seq<Addr>, todo: Pending, node: Addr)        // found one; the lock CAS is next
    | Took(held: seq<Addr>, todo: Pending, node: Addr)       // CAS succeeded; the node read is next
    | In(held: seq<Addr>, todo: Pending, image: Node)        // inside the last held node, with its image
    | Half(held: seq<Addr>, todo: Pending, image: Node, spare: Addr, up: Pending)
                                                             // wrote the right part; `image` is the left one
    | Top(held: seq<Addr>, todo: Pending)                    // there is no level above
    | Grow(held: seq<Addr>, todo: Pending, spare: Addr)      // wrote a new root; reads the root pointer
    | Swap(held: seq<Addr>, todo: Pending, spare: Addr, seen: Addr)  // the root CAS is next
    | Unwind(held: seq<Addr>)                                // releases the held nodes, last first
  {
    function Todo(): Pending {
      if Off? || Unwind? then NoSplit else todo
    }

    predicate HasSpare() {
      Half? || Grow? || Swap?
    }

    /** The nodes locked, from the leaf upwards. */
    function Locked(): seq<Addr> {
      if Off? then [] else if Took? then held + [node] else held
    }

    /** What the lock protocol sees of it. */
    function Locks(): SplitLocks.Pc {
      match this
      case Off => SplitLocks.Off
      case Seek(held, _) => SplitLocks.Seek(held)
      case Try(held, _, node) => SplitLocks.Try(held, node)
      case Took(held, _, node) => SplitLocks.Took(held, node)
      case In(held, _, image) => SplitLocks.In(held, image.lock)
      case Half(held, _, image, _, _) => SplitLocks.In(held, image.lock)
      case Top(held, _) => SplitLocks.Seek(held)
      case Grow(held, _, _) => SplitLocks.Unwind(held)
      case Swap(held, _, _, _) => SplitLocks.Unwind(held)
      case Unwind(held) => SplitLocks.Unwind(held)
    }
  }

  datatype State = State(mem: Memory, model: map<Key, Value>, pcs: map<Thread, Pc>)

  datatype Step =
    | TryLeaf(t: Thread, node: Addr)         // CAS on the lock word of a leaf; a failure ends the splitter
    | Find(t: Thread, node: Addr)            // the search returns a node of the wanted level
    | Cas(t: Thread)                         // CAS on its lock word; a failure starts the search again
    | Read(t: Thread)                        // reads the whole node
    | Retreat(t: Thread)                     // the fence does not cover the separator: release, search again
    | Skip(t: Thread, es: seq<Entry>)        // a leaf with too few entries
    | Duplicate(t: Thread)                   // the separator is there already
    | CutLeaf(t: Thread, es: seq<Entry>, left: Node, node: Addr, right: Node)  // writes the new right leaf
    | CutInner(t: Thread, node: Addr)        // writes the right half of a full inner node
    | WriteBack(t: Thread)                   // writes the left part
    | Enter(t: Thread)                       // writes a node with room, with the separator
    | NoLevel(t: Thread)                     // the root is below the wanted level
    | NewRoot(t: Thread, node: Addr)         // writes a new root over the root
    | ReadRoot(t: Thread)
    | CasRoot(t: Thread)
    | Release(t: Thread)                     // fetch-and-add of -1 on the last held lock word
    | Finish(t: Thread)
    | Upsert(t: Thread, node: Addr, i: nat, item: Addr, it: Item)  // a client's CAS on a block of a leaf

  function Goto(s: State, t: Thread, pc: Pc): State {
    s.(pcs := s.pcs[t := pc])
  }

  function Store(s: State, a: Addr, n: Node): State {
    s.(mem := Put(s.mem, a, n))
  }

  // ---- The tree that searches can reach -----------------------------------------------------------

  /** Nodes written by a splitter before the write that makes them part of the tree. */
  ghost function Privates(s: State): set<Addr> {
    set t | t in s.pcs && s.pcs[t].HasSpare() :: s.pcs[t].spare
  }

  ghost function Tree(s: State): Memory {
    s.mem.(nodes := s.mem.nodes - Privates(s))
  }

  ghost function Pends(s: State): Pendings {
    map t | t in s.pcs && s.pcs[t].Todo().Split? :: s.pcs[t].Todo()
  }

  /** A node that is linked into the tree; `SearchStaysShared` proves that a search meets no other. */
  ghost predicate Shared(s: State, a: Addr) {
    a in Tree(s).nodes && Reachable(Pends(s), a)
  }

  /** A splitter has read the leaf, with all blocks locked, and not yet written it back. */
  ghost predicate Frozen(s: State, a: Addr) {
    exists t :: t in s.pcs && (s.pcs[t].In? || s.pcs[t].Half?) && s.pcs[t].held == [a]
  }

  // ---- Steps ------------------------------------------------------------------------------------

  predicate Arrays(cfg: Config, n: Node) {
    n.Inner? && |n.keys| == |n.kids| == cfg.Bf() && n.last < cfg.Bf() && cfg.Bf() >= 4
  }

  ghost predicate LeafParts(cfg: Config, n: Node, es: seq<Entry>, l: Node, r: Node) {
    && n.Leaf? && l.Leaf? && r.Leaf? && |l.blocks| == |r.blocks| == cfg.Bf() && 2 <= |es|
    && l.lo == n.lo && l.hi == r.lo == es[|es| / 2].key && r.hi == n.hi && l.lock == n.lock && r.lock == 0
    && PartOf(es, 0, |es| / 2, l) && PartOf(es, |es| / 2, |es|, r)
  }

  function Widened(n: Node, p: Pending): Node
    requires n.Inner? && n.last < |n.keys| == |n.kids| && p.Split?
  {
    WithEntry(Roomier(n), p.sep, p.right)
  }

  /** The node image covers the separator, which is new to it. */
  predicate Fits(cfg: Config, n: Node, p: Pending) {
    Arrays(cfg, n) && p.Split? && n.Covers(p.sep) && p.sep !in n.keys[..n.last + 1]
  }

  /** Lock words change. */
  ghost predicate LockMove(cfg: Config, s: State, step: Step, s': State) {
    && step.t in s.pcs
    && var pc := s.pcs[step.t];
    match step
    case TryLeaf(t, a) =>
      && pc.Off? && Shared(s, a) && s.mem.nodes[a].Leaf?
      && s' == if s.mem.nodes[a].lock == 0 then Store(Goto(s, t, Took([], NoSplit, a)), a, Relock(s.mem.nodes[a], 1))
               else s
    case Cas(t) =>
      && pc.Try? && pc.node in s.mem.nodes
      && s' == if s.mem.nodes[pc.node].lock == 0 then
                 Store(Goto(s, t, Took(pc.held, pc.todo, pc.node)), pc.node, Relock(s.mem.nodes[pc.node], 1))
               else Goto(s, t, Seek(pc.held, pc.todo))
    case Retreat(t) =>
      && pc.In? && pc.held != [] && pc.todo.Split? && !pc.image.Covers(pc.todo.sep)
      && var rest, a := pc.held[..|pc.held| - 1], pc.held[|pc.held| - 1];
      && a in s.mem.nodes
      && s' == Store(Goto(s, t, Seek(rest, pc.todo)), a, Relock(s.mem.nodes[a], Decremented(s.mem.nodes[a].lock)))
    case Release(t) =>
      && pc.Unwind? && pc.held != []
      && var rest, a := pc.held[..|pc.held| - 1], pc.held[|pc.held| - 1];
      && a in s.mem.nodes
      && s' == Store(Goto(s, t, Unwind(rest)), a, Relock(s.mem.nodes[a], Decremented(s.mem.nodes[a].lock)))
    case _ => false
  }

  /** Memory stays. */
  ghost predicate QuietMove(cfg: Config, s: State, step: Step, s': State) {
    && step.t in s.pcs
    && var pc := s.pcs[step.t];
    match step
    case Find(t, a) =>
      && pc.Seek? && pc.todo.Split? && Shared(s, a) && s.mem.nodes[a].Level() == pc.todo.level
      && s' == Goto(s, t, Try(pc.held, pc.todo, a))
    case Read(t) =>
      && pc.Took? && pc.node in s.mem.nodes
      && s' == Goto(s, t, In(pc.held + [pc.node], pc.todo, s.mem.nodes[pc.node]))
    case Skip(t, es) =>
      && pc.In? && pc.image.Leaf? && Gathered(s.mem.items, pc.image, |pc.image.blocks|, es) && |es| <= cfg.Bf() / 2
      && s' == Goto(s, t, Unwind(pc.held))
    case Duplicate(t) =>
      && pc.In? && pc.todo.Split? && Arrays(cfg, pc.image) && pc.image.Covers(pc.todo.sep)
      && pc.todo.sep in pc.image.keys[..pc.image.last + 1]
      && s' == Goto(s, t, Unwind(pc.held))
    case NoLevel(t) =>
      && pc.Seek? && pc.todo.Split? && s.mem.root in s.mem.nodes && s.mem.nodes[s.mem.root].Level() < pc.todo.level
      && s' == Goto(s, t, Top(pc.held, pc.todo))
    case ReadRoot(t) =>
      && pc.Grow?
      && s' == Goto(s, t, Swap(pc.held, pc.todo, pc.spare, s.mem.root))
    case Finish(t) =>
      pc == Unwind([]) && s' == Goto(s, t, Off)
    case _ => false
  }

  /** A new node is written, which no other node points to yet. */
  ghost predicate AddMove(cfg: Config, s: State, step: Step, s': State) {
    && step.t in s.pcs
    && var pc := s.pcs[step.t];
    match step
    case CutLeaf(t, es, l, d, r) =>
      && pc.In? && pc.image.Leaf? && Gathered(s.mem.items, pc.image, |pc.image.blocks|, es) && |es| > cfg.Bf() / 2
      && LeafParts(cfg, pc.image, es, l, r) && d !in s.mem.nodes
      && s' == Store(Goto(s, t, Half(pc.held, pc.todo, l, d, Split(r.lo, d, 1))), d, r)
    case CutInner(t, d) =>
      && pc.In? && Fits(cfg, pc.image, pc.todo) && pc.image.last + 1 >= cfg.Bf() && d !in s.mem.nodes
      && var w, mid := Widened(pc.image, pc.todo), cfg.Bf() / 2;
      && var up := Split(w.keys[mid], d, w.height + 1);
      s' == Store(Goto(s, t, Half(pc.held, pc.todo, LeftHalf(w, mid), d, up)), d, RightHalf(w, mid))
    case NewRoot(t, d) =>
      && pc.Top? && pc.todo.Split? && cfg.Bf() >= 2 && d !in s.mem.nodes
      && s' == Store(Goto(s, t, Grow(pc.held, pc.todo, d)), d, FaunusStructure.NewRoot(cfg, s.mem.root, pc.todo))
    case _ => false
  }

  /** The tree changes. */
  ghost predicate TreeMove(cfg: Config, s: State, step: Step, s': State) {
    && step.t in s.pcs
    && var pc := s.pcs[step.t];
    match step
    case WriteBack(t) =>
      && pc.Half? && pc.held != []
      && s' == Store(Goto(s, t, Seek(pc.held, pc.up)), pc.held[|pc.held| - 1], pc.image)
    case Enter(t) =>
      && pc.In? && pc.held != [] && Fits(cfg, pc.image, pc.todo) && pc.image.last + 1 < cfg.Bf()
      && var w := WithEntry(pc.image, pc.todo.sep, pc.todo.right);
      s' == Store(Goto(s, t, Unwind(pc.held)), pc.held[|pc.held| - 1], w)
    case CasRoot(t) =>
      && pc.Swap?
      && s' == Goto(s, t, Unwind(pc.held)).(mem := if s.mem.root == pc.seen then s.mem.(root := pc.spare) else s.mem)
    case _ => false
  }

  /** A client inserts an absent key into a free block or updates a present one. */
  ghost predicate ClientMove(cfg: Config, s: State, step: Step, s': State) {
    && step.t in s.pcs
    && var pc := s.pcs[step.t];
    match step
    case Upsert(t, a, i, x, it) =>
      && pc.Off? && Shared(s, a) && !Frozen(s, a) && s.mem.nodes[a].Leaf?
      && var n := s.mem.nodes[a];
      && i < |n.blocks| && n.Covers(it.key) && x !in s.mem.items
      && (if it.key in s.model then Holds(s.mem.items, n, i, it.key) else n.blocks[i].free)
      && s' == s.(mem := Put(s.mem.(items := s.mem.items[x := it]), a, WithBlock(n, i, it.key, x)),
                  model := s.model[it.key := it.value])
    case _ => false
  }

  ghost predicate Next(cfg: Config, s: State, step: Step, s': State) {
    || LockMove(cfg, s, step, s') || QuietMove(cfg, s, step, s') || AddMove(cfg, s, step, s')
    || TreeMove(cfg, s, step, s') || ClientMove(cfg, s, step, s')
  }

  /** A settled tree, all nodes unlocked, and nobody at work. */
  ghost predicate Init(cfg: Config, s: State) {
    && Structure(cfg, s.mem, NoSplit) && AllExact(s.mem, s.model)
    && (forall a :: a in s.mem.nodes ==> s.mem.nodes[a].lock == 0)
    && forall t :: t in s.pcs ==> s.pcs[t] == Off
  }

  // ---- The lock protocol ---------------------------------------------------------------------------

  ghost function Levels(nodes: map<Addr, Node>): map<Addr, nat> {
    map a | a in nodes :: nodes[a].Level()
  }

  ghost function Words(nodes: map<Addr, Node>): map<Addr, int> {
    map a | a in nodes :: nodes[a].lock
  }

  ghost function LockPcs(pcs: map<Thread, Pc>): map<Thread, SplitLocks.Pc> {
    map t | t in pcs :: pcs[t].Locks()
  }

  ghost function LockState(s: State): SplitLocks.State {
    SplitLocks.State(Levels(s.mem.nodes), Words(s.mem.nodes), LockPcs(s.pcs))
  }

  function ToLockStep(step: Step): SplitLocks.Step {
    match step
    case TryLeaf(t, a) => SplitLocks.TryLeaf(t, a)
    case Find(t, a) => SplitLocks.Find(t, a)
    case Cas(t) => SplitLocks.Cas(t)
    case Read(t) => SplitLocks.Read(t)
    case Retreat(t) => SplitLocks.Retreat(t)
    case CutLeaf(t, _, _, d, _) => SplitLocks.NewNode(t, d)
    case CutInner(t, d) => SplitLocks.NewNode(t, d)
    case WriteBack(t) => SplitLocks.Write(t, true)
    case Enter(t) => SplitLocks.Write(t, false)
    case NewRoot(t, d) => SplitLocks.NewRoot(t, d)
    case Release(t) => SplitLocks.Release(t)
    case Finish(t) => SplitLocks.Finish(t)
    case _ => SplitLocks.Skip(step.t)
  }

  /** Steps that the lock protocol does not see. */
  predicate Silent(step: Step) {
    step.NoLevel? || step.ReadRoot? || step.CasRoot? || step.Upsert?
  }

  // ---- The invariant -------------------------------------------------------------------------------

  /** The last cut of the splitter ends at the separator. */
  ghost predicate TodoOk(s: State, held: seq<Addr>, p: Pending, level: nat) {
    && p.Split? && p.level == level && 1 <= level <= |held|
    && held[level - 1] in s.mem.nodes && s.mem.nodes[held[level - 1]].hi == p.sep
  }

  /** Inside a leaf there is no separator yet, above it there is one. */
  ghost predicate InsideOk(s: State, held: seq<Addr>, p: Pending) {
    held != [] && if |held| == 1 then p == NoSplit else TodoOk(s, held, p, |held| - 1)
  }

  /** The two parts of the last held node: the right one is written, the left one is next. */
  ghost predicate HalfOk(cfg: Config, s: State, pc: Pc)
    requires pc.Half?
  {
    && InsideOk(s, pc.held, pc.todo) && pc.held[|pc.held| - 1] in s.mem.nodes && pc.spare in s.mem.nodes
    && var n, r, l := s.mem.nodes[pc.held[|pc.held| - 1]], s.mem.nodes[pc.spare], pc.image;
    if |pc.held| == 1 then
      && n.Leaf? && LeafShape(cfg, l) && LeafShape(cfg, r)
      && l.lo == n.lo && l.hi == r.lo && r.hi == n.hi && l.lock == n.lock && r.lock == 0
      && Exact(s.mem.items, s.model, l) && pc.up == Split(r.lo, pc.spare, 1)
    else
      && Fits(cfg, n, pc.todo) && n.height == pc.todo.level && n.last + 1 == cfg.Bf()
      && var w, mid := Widened(n, pc.todo), cfg.Bf() / 2;
      l == LeftHalf(w, mid) && r == RightHalf(w, mid) && pc.up == Split(w.keys[mid], pc.spare, w.height + 1)
  }

  ghost predicate AtTop(s: State, held: seq<Addr>, p: Pending) {
    TodoOk(s, held, p, |held|) && held[|held| - 1] == s.mem.root
  }

  ghost predicate PcOk(cfg: Config, s: State, pc: Pc) {
    match pc
    case Off => true
    case Seek(held, p) => TodoOk(s, held, p, |held|)
    case Try(held, p, a) => TodoOk(s, held, p, |held|) && Shared(s, a)
    case Took(held, p, _) => if held == [] then p == NoSplit else TodoOk(s, held, p, |held|)
    case In(held, p, n) => InsideOk(s, held, p) && held[|held| - 1] in s.mem.nodes && s.mem.nodes[held[|held| - 1]] == n
    case Half(_, _, _, _, _) => HalfOk(cfg, s, pc)
    case Top(held, p) => AtTop(s, held, p)
    case Grow(held, p, d) =>
      && AtTop(s, held, p) && cfg.Bf() >= 2 && d in s.mem.nodes
      && s.mem.nodes[d] == FaunusStructure.NewRoot(cfg, s.mem.root, p)
    case Swap(held, p, d, a) =>
      && AtTop(s, held, p) && cfg.Bf() >= 2 && d in s.mem.nodes
      && s.mem.nodes[d] == FaunusStructure.NewRoot(cfg, s.mem.root, p) && a == s.mem.root
    case Unwind(_) => true
  }

  ghost predicate Holder(s: State, t: Thread, a: Addr) {
    t in s.pcs && a in s.pcs[t].Locked()
  }

  /** What the lock protocol gives: one holder at a time, whose lock word is 1, and one node of each level
      from the leaf up. */
  ghost predicate LocksOk(s: State) {
    && (forall t, u, a :: Holder(s, t, a) && Holder(s, u, a) ==> t == u)
    && (forall t :: t in s.pcs ==> LadderOk(s, s.pcs[t]))
  }

  ghost predicate LadderOk(s: State, pc: Pc) {
    forall i :: 0 <= i < |pc.Locked()| ==>
      && pc.Locked()[i] in s.mem.nodes && s.mem.nodes[pc.Locked()[i]].Level() == i
      && s.mem.nodes[pc.Locked()[i]].lock == 1
  }

  /** What splitters have locked is part of the tree. */
  ghost predicate HeldShared(s: State) {
    forall t, a :: Holder(s, t, a) ==> Shared(s, a)
  }

  ghost predicate SpareOnce(s: State) {
    && (forall t :: t in s.pcs && s.pcs[t].HasSpare() ==> s.pcs[t].spare in s.mem.nodes && s.pcs[t].spare != s.mem.root)
    && (forall t, u :: t in s.pcs && u in s.pcs && s.pcs[t].HasSpare() && s.pcs[u].HasSpare() && t != u ==>
          s.pcs[t].spare != s.pcs[u].spare)
  }

  ghost predicate PcsOk(cfg: Config, s: State) {
    forall t :: t in s.pcs ==> PcOk(cfg, s, s.pcs[t])
  }

  ghost predicate Inv(cfg: Config, s: State) {
    && SplitLocks.Inv(LockState(s))
    && Forest(cfg, Tree(s), Pends(s))
    && ReaderSafe(cfg, s.mem, s.model)
    && PcsOk(cfg, s) && HeldShared(s) && SpareOnce(s)
  }

  lemma InitInv(cfg: Config, s: State)
    requires Init(cfg, s)
    ensures Inv(cfg, s)
  {
    assert Tree(s) == s.mem && Pends(s) == map[];
    SettledForest(cfg, s.mem);
    StructureGivesWeakLinks(cfg, s.mem, NoSplit);
    assert SplitLocks.Init(LockState(s));
    SplitLocks.InitInv(LockState(s));
  }

  lemma LockFacts(s: State)
    requires SplitLocks.Inv(LockState(s))
    ensures LocksOk(s)
  {
    var k := LockState(s);
    forall t | t in s.pcs
      ensures k.pcs[t].Locked() == s.pcs[t].Locked()
    {
    }
    forall t, u, a | Holder(s, t, a) && Holder(s, u, a)
      ensures t == u
    {
      assert SplitLocks.HeldBy(k, t, a) && SplitLocks.HeldBy(k, u, a);
    }
    forall t | t in s.pcs
      ensures LadderOk(s, s.pcs[t])
    {
      assert SplitLocks.PcOk(k, k.pcs[t]);
      forall i | 0 <= i < |s.pcs[t].Locked()|
        ensures s.pcs[t].Locked()[i] in k.words && k.words[s.pcs[t].Locked()[i]] == 1
      {
        assert SplitLocks.HeldBy(k, t, s.pcs[t].Locked()[i]);
      }
    }
  }

  lemma LevelsAfter(nodes: map<Addr, Node>, a: Addr, n: Node)
    ensures Levels(nodes[a := n]) == Levels(nodes)[a := n.Level()] && Words(nodes[a := n]) == Words(nodes)[a := n.lock]
  {
  }

  lemma PcsAfter(pcs: map<Thread, Pc>, t: Thread, pc: Pc)
    ensures LockPcs(pcs[t := pc]) == LockPcs(pcs)[t := pc.Locks()]
  {
  }

  lemma LocksAfterStore(s: State, t: Thread, pc: Pc, a: Addr, n: Node)
    ensures var k := LockState(s);
      LockState(Store(Goto(s, t, pc), a, n))
        == SplitLocks.State(k.levels[a := n.Level()], k.words[a := n.lock], k.pcs[t := pc.Locks()])
  {
    hide Levels, Words, LockPcs;
    LevelsAfter(s.mem.nodes, a, n);
    PcsAfter(s.pcs, t, pc);
  }

  lemma LocksBefore(s: State)
    ensures var k := LockState(s);
      && k.levels.Keys == k.words.Keys == s.mem.nodes.Keys && k.pcs.Keys == s.pcs.Keys
      && (forall a :: a in s.mem.nodes ==> k.levels[a] == s.mem.nodes[a].Level() && k.words[a] == s.mem.nodes[a].lock)
      && forall t :: t in s.pcs ==> k.pcs[t] == s.pcs[t].Locks()
  {
  }

  lemma LocksAfterGoto(s: State, t: Thread, pc: Pc)
    ensures LockState(Goto(s, t, pc)) == SplitLocks.Goto(LockState(s), t, pc.Locks())
  {
    hide Levels, Words, LockPcs;
    PcsAfter(s.pcs, t, pc);
  }

  /** A step that changes neither nodes nor what the lock protocol sees of the thread. */
  lemma LocksUnseen(s: State, s': State, t: Thread, pc: Pc)
    requires t in s.pcs && s'.pcs == s.pcs[t := pc] && pc.Locks() == s.pcs[t].Locks() && s'.mem.nodes == s.mem.nodes
    ensures LockState(s') == LockState(s)
  {
    PcsAfter(s.pcs, t, pc);
    assert LockPcs(s.pcs)[t := LockPcs(s.pcs)[t]] == LockPcs(s.pcs);
  }

  lemma SameLevel(s: State, a: Addr)
    requires a in s.mem.nodes
    ensures LockState(s).levels[a := s.mem.nodes[a].Level()] == LockState(s).levels
  {
  }

  /** Every step of the splitters is a step of the lock protocol, or is silent there. */
  lemma StepsAreLockSteps(cfg: Config, s: State, step: Step, s': State)
    requires SplitLocks.Inv(LockState(s)) && PcsOk(cfg, s) && Next(cfg, s, step, s')
    ensures if Silent(step) then LockState(s') == LockState(s)
            else SplitLocks.Next(LockState(s), ToLockStep(step), LockState(s'))
  {
    assert step.t in s.pcs && PcOk(cfg, s, s.pcs[step.t]);
    LockFacts(s);
    hide LockState, PcOk, SplitLocks.Inv, SplitLocks.Next, LockMove, QuietMove, AddMove, TreeMove, ClientMove;
    if LockMove(cfg, s, step, s') {
      LockMoveLocks(cfg, s, step, s');
    } else if QuietMove(cfg, s, step, s') {
      QuietMoveLocks(cfg, s, step, s');
    } else if AddMove(cfg, s, step, s') {
      AddMoveLocks(cfg, s, step, s');
    } else if TreeMove(cfg, s, step, s') {
      TreeMoveLocks(cfg, s, step, s');
    } else {
      ClientMoveLocks(cfg, s, step, s');
    }
  }

  /** Taking a free lock, of a leaf or of the node found. */
  lemma TakeStep(k: SplitLocks.State, step: SplitLocks.Step, a: Addr)
    requires step.t in k.pcs && a in k.levels && a in k.words && k.words[a] == 0
    requires var pc := k.pcs[step.t];
      || (step.TryLeaf? && step.node == a && pc.Off? && k.levels[a] == 0)
      || (step.Cas? && pc.Try? && pc.node == a)
    ensures var held := if step.Cas? then k.pcs[step.t].held else [];
      SplitLocks.Next(k, step, SplitLocks.State(k.levels, k.words[a := 1], k.pcs[step.t := SplitLocks.Took(held, a)]))
  {
  }

  lemma GiveStep(k: SplitLocks.State, step: SplitLocks.Step)
    requires step.t in k.pcs && (step.Release? || step.Retreat?)
    requires var pc := k.pcs[step.t];
      && (if step.Release? then pc.Unwind? else pc.In? && |pc.held| >= 2)
      && pc.held != [] && pc.held[|pc.held| - 1] in k.words
    ensures var held := k.pcs[step.t].held; var a, rest := held[|held| - 1], held[..|held| - 1];
      var pc' := if step.Release? then SplitLocks.Unwind(rest) else SplitLocks.Seek(rest);
      SplitLocks.Next(k, step, SplitLocks.State(k.levels, k.words[a := k.words[a] - 1], k.pcs[step.t := pc']))
  {
  }

  lemma NewNodeStep(k: SplitLocks.State, t: Thread, d: Addr, level: nat)
    requires t in k.pcs && k.pcs[t].In? && k.pcs[t].held != [] && d !in k.levels && d !in k.words
    requires k.pcs[t].held[|k.pcs[t].held| - 1] in k.levels && k.levels[k.pcs[t].held[|k.pcs[t].held| - 1]] == level
    ensures SplitLocks.Next(k, SplitLocks.NewNode(t, d),
                            SplitLocks.State(k.levels[d := level], k.words[d := 0], k.pcs[t := k.pcs[t]]))
  {
    assert k.pcs[t := k.pcs[t]] == k.pcs;
  }

  lemma NewRootStep(k: SplitLocks.State, t: Thread, d: Addr)
    requires t in k.pcs && k.pcs[t].Seek? && d !in k.levels && d !in k.words
    ensures var held := k.pcs[t].held;
      SplitLocks.Next(k, SplitLocks.NewRoot(t, d),
                      SplitLocks.State(k.levels[d := |held|], k.words[d := 0], k.pcs[t := SplitLocks.Unwind(held)]))
  {
  }

  lemma WriteStep(k: SplitLocks.State, t: Thread, split: bool)
    requires t in k.pcs && k.pcs[t].In? && k.pcs[t].held != []
    ensures var pc := k.pcs[t]; var a := pc.held[|pc.held| - 1];
      var pc' := if split then SplitLocks.Seek(pc.held) else SplitLocks.Unwind(pc.held);
      SplitLocks.Next(k, SplitLocks.Write(t, split),
                      SplitLocks.State(k.levels, k.words[a := pc.image], k.pcs[t := pc']))
  {
  }

  lemma TakeLocks(cfg: Config, s: State, step: Step, s': State, a: Addr)
    requires LockMove(cfg, s, step, s') && a in s.mem.nodes && s.mem.nodes[a].lock == 0
    requires if step.TryLeaf? then step.node == a else step.Cas? && s.pcs[step.t].node == a
    ensures SplitLocks.Next(LockState(s), ToLockStep(step), LockState(s'))
  {
    LocksBefore(s);
    hide LockState, SplitLocks.Next;
    LocksAfterStore(s, step.t, s'.pcs[step.t], a, Relock(s.mem.nodes[a], 1));
    SameLevel(s, a);
    TakeStep(LockState(s), ToLockStep(step), a);
  }

  lemma MissLocks(cfg: Config, s: State, step: Step, s': State, a: Addr)
    requires LockMove(cfg, s, step, s') && a in s.mem.nodes && s.mem.nodes[a].lock != 0
    requires if step.TryLeaf? then step.node == a else step.Cas? && s.pcs[step.t].node == a
    ensures SplitLocks.Next(LockState(s), ToLockStep(step), LockState(s'))
  {
    LocksBefore(s);
    hide LockState;
    LocksAfterGoto(s, step.t, s'.pcs[step.t]);
  }

  lemma GivenBack(s: State, step: SplitLocks.Step, pc': Pc, a: Addr)
    requires step.t in s.pcs && a in s.mem.nodes && s.mem.nodes[a].lock == 1
    requires var pc := s.pcs[step.t];
      && (if step.Release? then pc.Unwind? else step.Retreat? && pc.In? && |pc.held| >= 2)
      && pc.held != [] && a == pc.held[|pc.held| - 1]
      && var rest := pc.held[..|pc.held| - 1];
      pc'.Locks() == if step.Release? then SplitLocks.Unwind(rest) else SplitLocks.Seek(rest)
    ensures SplitLocks.Next(LockState(s), step, LockState(Store(Goto(s, step.t, pc'), a, Relock(s.mem.nodes[a], 0))))
  {
    LocksBefore(s);
    hide LockState, SplitLocks.Next;
    LocksAfterStore(s, step.t, pc', a, Relock(s.mem.nodes[a], 0));
    SameLevel(s, a);
    GiveStep(LockState(s), step);
  }

  lemma GiveLocks(cfg: Config, s: State, step: Step, s': State)
    requires LocksOk(s) && LockMove(cfg, s, step, s') && (step.Retreat? || step.Release?)
    requires step.Retreat? ==> InsideOk(s, s.pcs[step.t].held, s.pcs[step.t].todo)
    ensures SplitLocks.Next(LockState(s), ToLockStep(step), LockState(s'))
  {
    var pc := s.pcs[step.t];
    var a := pc.held[|pc.held| - 1];
    assert LadderOk(s, pc) && pc.Locked() == pc.held && pc.Locked()[|pc.held| - 1] == a;
    hide LockState, SplitLocks.Next, LocksOk, LadderOk;
    GivenBack(s, ToLockStep(step), s'.pcs[step.t], a);
  }

  lemma LockMoveLocks(cfg: Config, s: State, step: Step, s': State)
    requires LocksOk(s) && LockMove(cfg, s, step, s') && PcOk(cfg, s, s.pcs[step.t])
    ensures !Silent(step) && SplitLocks.Next(LockState(s), ToLockStep(step), LockState(s'))
  {
    hide LockState, SplitLocks.Next;
    if step.TryLeaf? || step.Cas? {
      var a := if step.TryLeaf? then step.node else s.pcs[step.t].node;
      if s.mem.nodes[a].lock == 0 {
        TakeLocks(cfg, s, step, s', a);
      } else {
        MissLocks(cfg, s, step, s', a);
      }
    } else {
      GiveLocks(cfg, s, step, s');
    }
  }

  lemma FindLocks(cfg: Config, s: State, step: Step, s': State)
    requires QuietMove(cfg, s, step, s') && step.Find? && s.pcs[step.t].todo.level == |s.pcs[step.t].held|
    ensures SplitLocks.Next(LockState(s), ToLockStep(step), LockState(s'))
  {
    LocksBefore(s);
    hide LockState;
    LocksAfterGoto(s, step.t, s'.pcs[step.t]);
  }

  lemma QuietLocks(cfg: Config, s: State, step: Step, s': State)
    requires QuietMove(cfg, s, step, s') && (step.Read? || step.Skip? || step.Duplicate? || step.Finish?)
    ensures SplitLocks.Next(LockState(s), ToLockStep(step), LockState(s'))
  {
    LocksBefore(s);
    hide LockState, Gathered;
    LocksAfterGoto(s, step.t, s'.pcs[step.t]);
  }

  lemma QuietMoveLocks(cfg: Config, s: State, step: Step, s': State)
    requires QuietMove(cfg, s, step, s') && PcOk(cfg, s, s.pcs[step.t])
    ensures if Silent(step) then LockState(s') == LockState(s)
            else SplitLocks.Next(LockState(s), ToLockStep(step), LockState(s'))
  {
    hide SplitLocks.Next;
    hide LockState;
    if step.NoLevel? || step.ReadRoot? {
      LocksUnseen(s, s', step.t, s'.pcs[step.t]);
    } else if step.Find? {
      FindLocks(cfg, s, step, s');
    } else {
      QuietLocks(cfg, s, step, s');
    }
  }

  /** The new node is on the level of the one that is cut. */
  lemma CutLocks(cfg: Config, s: State, step: Step, s': State)
    requires AddMove(cfg, s, step, s') && (step.CutLeaf? || step.CutInner?)
    requires var pc := s.pcs[step.t];
      pc.held != [] && pc.held[|pc.held| - 1] in s.mem.nodes && s.mem.nodes[pc.held[|pc.held| - 1]] == pc.image
    ensures SplitLocks.Next(LockState(s), ToLockStep(step), LockState(s'))
  {
    CutPc(cfg, s, step, s');
    hide LockState, SplitLocks.Next, AddMove;
    NodeAdded(s, step.t, s'.pcs[step.t], step.node, s'.mem.nodes[step.node]);
  }

  lemma NodeAdded(s: State, t: Thread, pc': Pc, d: Addr, n: Node)
    requires t in s.pcs && s.pcs[t].In? && pc'.Locks() == s.pcs[t].Locks() && d !in s.mem.nodes && n.lock == 0
    requires var held := s.pcs[t].held;
      held != [] && held[|held| - 1] in s.mem.nodes && s.mem.nodes[held[|held| - 1]].Level() == n.Level()
    ensures SplitLocks.Next(LockState(s), SplitLocks.NewNode(t, d), LockState(Store(Goto(s, t, pc'), d, n)))
  {
    LocksBefore(s);
    hide LockState, SplitLocks.Next;
    LocksAfterStore(s, t, pc', d, n);
    NewNodeStep(LockState(s), t, d, n.Level());
  }

  lemma CutPc(cfg: Config, s: State, step: Step, s': State)
    requires AddMove(cfg, s, step, s') && (step.CutLeaf? || step.CutInner?)
    ensures var pc, pc' := s.pcs[step.t], s'.pcs[step.t];
      && pc.In? && pc'.Half? && pc'.held == pc.held && pc'.image.lock == pc.image.lock
      && step.node !in s.mem.nodes && s' == Store(Goto(s, step.t, pc'), step.node, s'.mem.nodes[step.node])
      && s'.mem.nodes[step.node].Level() == pc.image.Level() && s'.mem.nodes[step.node].lock == 0
  {
    hide Gathered, PartOf;
  }

  lemma RootLocks(cfg: Config, s: State, step: Step, s': State)
    requires AddMove(cfg, s, step, s') && step.NewRoot? && s.pcs[step.t].todo.level == |s.pcs[step.t].held|
    ensures SplitLocks.Next(LockState(s), ToLockStep(step), LockState(s'))
  {
    LocksBefore(s);
    hide LockState, SplitLocks.Next;
    LocksAfterStore(s, step.t, s'.pcs[step.t], step.node, s'.mem.nodes[step.node]);
    NewRootStep(LockState(s), step.t, step.node);
  }

  lemma AddMoveLocks(cfg: Config, s: State, step: Step, s': State)
    requires LocksOk(s) && AddMove(cfg, s, step, s') && PcOk(cfg, s, s.pcs[step.t])
    ensures !Silent(step) && SplitLocks.Next(LockState(s), ToLockStep(step), LockState(s'))
  {
    hide LockState, SplitLocks.Next;
    if step.NewRoot? {
      RootLocks(cfg, s, step, s');
    } else {
      CutLocks(cfg, s, step, s');
    }
  }

  lemma WritePc(cfg: Config, s: State, step: Step, s': State, a: Addr)
    requires TreeMove(cfg, s, step, s') && (step.WriteBack? || step.Enter?) && a in s.mem.nodes
    requires a == s.pcs[step.t].held[|s.pcs[step.t].held| - 1] && s.mem.nodes[a].Level() == s.pcs[step.t].image.Level()
    ensures var pc, pc' := s.pcs[step.t], s'.pcs[step.t];
      && (pc.In? || pc.Half?) && pc.held != [] && pc'.Locks() == (if step.WriteBack? then SplitLocks.Seek(pc.held)
                                                                  else SplitLocks.Unwind(pc.held))
      && a in s'.mem.nodes && s' == Store(Goto(s, step.t, pc'), a, s'.mem.nodes[a])
      && s'.mem.nodes[a].Level() == s.mem.nodes[a].Level() && s'.mem.nodes[a].lock == pc.image.lock
  {
  }

  lemma WriteLocks(cfg: Config, s: State, step: Step, s': State, a: Addr)
    requires TreeMove(cfg, s, step, s') && (step.WriteBack? || step.Enter?) && a in s.mem.nodes
    requires a == s.pcs[step.t].held[|s.pcs[step.t].held| - 1] && s.mem.nodes[a].Level() == s.pcs[step.t].image.Level()
    ensures SplitLocks.Next(LockState(s), ToLockStep(step), LockState(s'))
  {
    WritePc(cfg, s, step, s', a);
    hide LockState, SplitLocks.Next, TreeMove;
    NodeWritten(s, step.t, step.WriteBack?, s'.pcs[step.t], a, s'.mem.nodes[a]);
  }

  lemma NodeWritten(s: State, t: Thread, split: bool, pc': Pc, a: Addr, n: Node)
    requires t in s.pcs && (s.pcs[t].In? || s.pcs[t].Half?) && n.lock == s.pcs[t].image.lock
    requires var held := s.pcs[t].held;
      && held != [] && a == held[|held| - 1] && a in s.mem.nodes && s.mem.nodes[a].Level() == n.Level()
      && pc'.Locks() == if split then SplitLocks.Seek(held) else SplitLocks.Unwind(held)
    ensures SplitLocks.Next(LockState(s), SplitLocks.Write(t, split), LockState(Store(Goto(s, t, pc'), a, n)))
  {
    LocksBefore(s);
    hide LockState, SplitLocks.Next;
    LocksAfterStore(s, t, pc', a, n);
    SameLevel(s, a);
    WriteStep(LockState(s), t, split);
  }

  lemma TreeMoveLocks(cfg: Config, s: State, step: Step, s': State)
    requires TreeMove(cfg, s, step, s') && PcOk(cfg, s, s.pcs[step.t])
    ensures if Silent(step) then LockState(s') == LockState(s)
            else SplitLocks.Next(LockState(s), ToLockStep(step), LockState(s'))
  {
    hide SplitLocks.Next, LockState;
    if step.CasRoot? {
      LocksUnseen(s, s', step.t, s'.pcs[step.t]);
    } else {
      WriteLocks(cfg, s, step, s', s.pcs[step.t].held[|s.pcs[step.t].held| - 1]);
    }
  }

  lemma ClientMoveLocks(cfg: Config, s: State, step: Step, s': State)
    requires ClientMove(cfg, s, step, s')
    ensures Silent(step) && LockState(s') == LockState(s)
  {
    hide LockPcs;
    assert Levels(s'.mem.nodes) == Levels(s.mem.nodes) && Words(s'.mem.nodes) == Words(s.mem.nodes);
  }

  // ---- What a step does to the tree ---------------------------------------------------------------

  lemma PendsAfter(s: State, s': State, t: Thread)
    requires t in s.pcs && t in s'.pcs && s'.pcs == s.pcs[t := s'.pcs[t]]
    ensures s'.pcs[t].Todo() == s.pcs[t].Todo() ==> Pends(s') == Pends(s)
    ensures s'.pcs[t].Todo().Split? ==> Pends(s') == Pends(s)[t := s'.pcs[t].Todo()]
    ensures !s'.pcs[t].Todo().Split? ==> Pends(s') == Pends(s) - {t}
  {
  }

  /** A new node that a splitter keeps to itself leaves the tree as it is; otherwise the tree gets what
      the memory gets. */
  lemma TreeAfter(s: State, s': State, t: Thread)
    requires t in s.pcs && t in s'.pcs && s'.pcs == s.pcs[t := s'.pcs[t]] && SpareOnce(s)
    ensures !s.pcs[t].HasSpare() && !s'.pcs[t].HasSpare() ==> Privates(s') == Privates(s)
    ensures s.pcs[t].HasSpare() && s'.pcs[t].HasSpare() && s'.pcs[t].spare == s.pcs[t].spare ==>
      Privates(s') == Privates(s)
    ensures !s.pcs[t].HasSpare() && s'.pcs[t].HasSpare() ==> Privates(s') == Privates(s) + {s'.pcs[t].spare}
    ensures s.pcs[t].HasSpare() && !s'.pcs[t].HasSpare() ==> Privates(s') == Privates(s) - {s.pcs[t].spare}
  {
    var pc, pc' := s.pcs[t], s'.pcs[t];
    assert forall u :: u in s.pcs && u != t ==> s'.pcs[u] == s.pcs[u];
    assert pc'.HasSpare() ==> s'.pcs[t].spare in Privates(s');
    assert pc.HasSpare() ==> s.pcs[t].spare in Privates(s);
    forall a | a in Privates(s)
      ensures a in Privates(s') || (pc.HasSpare() && a == pc.spare)
    {
      var u :| u in s.pcs && s.pcs[u].HasSpare() && s.pcs[u].spare == a;
      assert u != t ==> s'.pcs[u].spare in Privates(s');
    }
    forall a | a in Privates(s')
      ensures || (a in Privates(s) && (pc.HasSpare() && !pc'.HasSpare() ==> a != pc.spare))
              || (pc'.HasSpare() && a == pc'.spare)
    {
      var u :| u in s'.pcs && s'.pcs[u].HasSpare() && s'.pcs[u].spare == a;
      assert u != t ==> s.pcs[u].spare in Privates(s);
    }
  }

  /** Nodes stay shared; other threads' program counters, the nodes the thread has not locked, and, unless
      it holds the root, the root stay. */
  ghost predicate Frame(s: State, s': State, t: Thread) {
    && t in s.pcs && t in s'.pcs && s'.pcs == s.pcs[t := s'.pcs[t]]
    && (forall a :: Shared(s, a) ==> Shared(s', a))
    && (forall a :: a in s.mem.nodes ==> Kept(s, s', t, a))
    && (s'.mem.root == s.mem.root || Holder(s, t, s.mem.root))
    && s'.mem.items == s.mem.items && s'.model == s.model
  }

  ghost predicate Kept(s: State, s': State, t: Thread, a: Addr)
    requires a in s.mem.nodes
  {
    && a in s'.mem.nodes
    && (Holder(s, t, a) || Holder(s', t, a)
        || s'.mem.nodes[a] == s.mem.nodes[a])
  }

  lemma KeptByOthers(s: State, s': State, t: Thread, u: Thread, a: Addr)
    requires LocksOk(s) && LocksOk(s') && Frame(s, s', t) && u != t && u in s.pcs
    requires Holder(s, u, a) && a in s.mem.nodes
    ensures a in s'.mem.nodes && s'.mem.nodes[a] == s.mem.nodes[a]
  {
    assert Holder(s', u, a);
    assert Kept(s, s', t, a);
  }

  lemma SpareKept(s: State, s': State, t: Thread, u: Thread)
    requires Frame(s, s', t) && u != t && u in s.pcs && s.pcs[u].HasSpare() && s.pcs[u].spare in s.mem.nodes
    requires HeldShared(s) && HeldShared(s')
    ensures s.pcs[u].spare in s'.mem.nodes && s'.mem.nodes[s.pcs[u].spare] == s.mem.nodes[s.pcs[u].spare]
  {
    var d := s.pcs[u].spare;
    assert d in Privates(s);
    assert s'.pcs[u].spare in Privates(s');
    assert Kept(s, s', t, d);
  }

  lemma TodoStays(s: State, s': State, held: seq<Addr>, p: Pending, level: nat)
    requires TodoOk(s, held, p, level)
    requires var a := held[level - 1]; a in s'.mem.nodes && s'.mem.nodes[a].hi == s.mem.nodes[a].hi
    ensures TodoOk(s', held, p, level)
  {
  }

  /** The node keeps its end. */
  ghost predicate EndsAsBefore(s: State, s': State, a: Addr) {
    a in s.mem.nodes ==> a in s'.mem.nodes && s'.mem.nodes[a].hi == s.mem.nodes[a].hi
  }

  ghost predicate SameNode(s: State, s': State, a: Addr) {
    a in s.mem.nodes ==> a in s'.mem.nodes && s'.mem.nodes[a] == s.mem.nodes[a]
  }

  /** What a program counter depends on. */
  ghost predicate Undisturbed(s: State, s': State, pc: Pc) {
    && (forall a :: a in pc.Locked() ==> EndsAsBefore(s, s', a))
    && ((pc.In? || pc.Half?) && pc.held != [] ==> SameNode(s, s', pc.held[|pc.held| - 1]))
    && (pc.HasSpare() ==> SameNode(s, s', pc.spare))
    && (pc.Top? || pc.Grow? || pc.Swap? ==> s'.mem.root == s.mem.root)
    && (pc.Try? && Shared(s, pc.node) ==> Shared(s', pc.node))
    && (pc.Half? && |pc.held| == 1 && Exact(s.mem.items, s.model, pc.image) ==>
          Exact(s'.mem.items, s'.model, pc.image))
  }

  lemma TodoUndisturbed(s: State, s': State, pc: Pc, level: nat)
    requires Undisturbed(s, s', pc) && !pc.Off? && !pc.Unwind? && TodoOk(s, pc.held, pc.todo, level)
    ensures TodoOk(s', pc.held, pc.todo, level)
  {
    var a := pc.held[level - 1];
    assert pc.Locked()[level - 1] == a;
    assert EndsAsBefore(s, s', a);
    TodoStays(s, s', pc.held, pc.todo, level);
  }

  lemma HalfUndisturbed(cfg: Config, s: State, s': State, pc: Pc)
    requires Undisturbed(s, s', pc) && pc.Half? && HalfOk(cfg, s, pc)
    ensures HalfOk(cfg, s', pc)
  {
    if |pc.held| > 1 {
      TodoUndisturbed(s, s', pc, |pc.held| - 1);
    }
    hide Exact, Shared, EndsAsBefore, TodoOk, Widened, LeftHalf, RightHalf;
  }

  lemma PcUndisturbed(cfg: Config, s: State, s': State, pc: Pc)
    requires Undisturbed(s, s', pc) && PcOk(cfg, s, pc)
    ensures PcOk(cfg, s', pc)
  {
    hide HalfOk, TodoOk, Exact, Shared, EndsAsBefore;
    if pc.Half? {
      HalfUndisturbed(cfg, s, s', pc);
    } else if pc.In? && |pc.held| > 1 {
      TodoUndisturbed(s, s', pc, |pc.held| - 1);
    } else if !pc.Off? && !pc.Unwind? && !pc.In? && !(pc.Took? && pc.held == []) {
      TodoUndisturbed(s, s', pc, |pc.held|);
    }
  }

  lemma OtherPcOk(cfg: Config, s: State, s': State, t: Thread, u: Thread)
    requires LocksOk(s) && LocksOk(s') && HeldShared(s) && HeldShared(s')
    requires Frame(s, s', t) && u != t && u in s.pcs && PcOk(cfg, s, s.pcs[u])
    ensures PcOk(cfg, s', s'.pcs[u])
  {
    var pc := s.pcs[u];
    OtherHeld(s, s', t, u);
    if pc.HasSpare() && pc.spare in s.mem.nodes {
      SpareKept(s, s', t, u);
    }
    if pc.Top? || pc.Grow? || pc.Swap? {
      RootStays(cfg, s, s', t, u);
    }
    hide PcOk, HeldShared, LocksOk, Shared, Kept, EndsAsBefore;
    assert Undisturbed(s, s', pc);
    hide Undisturbed, Frame;
    PcUndisturbed(cfg, s, s', pc);
  }

  lemma RootStays(cfg: Config, s: State, s': State, t: Thread, u: Thread)
    requires LocksOk(s) && Frame(s, s', t) && u != t && u in s.pcs && PcOk(cfg, s, s.pcs[u])
    requires s.pcs[u].Top? || s.pcs[u].Grow? || s.pcs[u].Swap?
    ensures s'.mem.root == s.mem.root
  {
    var held := s.pcs[u].held;
    hide Shared, Kept;
    assert Holder(s, u, held[|held| - 1]);
  }

  lemma OtherHeld(s: State, s': State, t: Thread, u: Thread)
    requires LocksOk(s) && LocksOk(s') && Frame(s, s', t) && u != t && u in s.pcs
    ensures forall a :: a in s.pcs[u].Locked() ==> SameNode(s, s', a) && EndsAsBefore(s, s', a)
  {
    hide Frame, LocksOk;
    forall a | a in s.pcs[u].Locked()
      ensures SameNode(s, s', a) && EndsAsBefore(s, s', a)
    {
      if a in s.mem.nodes {
        KeptByOthers(s, s', t, u, a);
      }
    }
  }

  lemma HeldSharedAfter(s: State, s': State, t: Thread)
    requires Frame(s, s', t) && HeldShared(s)
    requires forall a :: a in s'.pcs[t].Locked() ==> Shared(s', a)
    ensures HeldShared(s')
  {
    hide Shared;
    forall u, a | Holder(s', u, a)
      ensures Shared(s', a)
    {
      assert u != t ==> Holder(s, u, a);
    }
  }

  /** No two splitters have the same new node. */
  lemma SpareOnceAfter(s: State, s': State, t: Thread)
    requires t in s.pcs && t in s'.pcs && s'.pcs == s.pcs[t := s'.pcs[t]] && SpareOnce(s)
    requires s.mem.nodes.Keys <= s'.mem.nodes.Keys
    requires s'.mem.root == s.mem.root
             || (s.pcs[t].HasSpare() && !s'.pcs[t].HasSpare() && s'.mem.root == s.pcs[t].spare)
    requires var pc, pc' := s.pcs[t], s'.pcs[t];
      pc'.HasSpare() ==>
        || (pc.HasSpare() && pc'.spare == pc.spare)
        || (pc'.spare !in s.mem.nodes && pc'.spare in s'.mem.nodes && s.mem.root in s.mem.nodes)
    ensures SpareOnce(s')
  {
  }

  /** Shared nodes stay shared: what becomes private is new, and what becomes pending was private. */
  lemma SharedGrows(s: State, s': State, t: Thread)
    requires t in s.pcs && t in s'.pcs && s'.pcs == s.pcs[t := s'.pcs[t]] && SpareOnce(s)
    requires s.mem.nodes.Keys <= s'.mem.nodes.Keys
    requires var pc, pc' := s.pcs[t], s'.pcs[t];
      && (pc'.HasSpare() ==> pc'.spare !in s.mem.nodes || (pc.HasSpare() && pc'.spare == pc.spare))
      && (pc'.Todo().Split? ==> pc'.Todo() == pc.Todo() || (pc.HasSpare() && pc'.Todo().right == pc.spare))
    ensures forall a :: Shared(s, a) ==> Shared(s', a)
  {
    PendsAfter(s, s', t);
    TreeAfter(s, s', t);
    assert s.pcs[t].HasSpare() ==> s.pcs[t].spare in Privates(s);
  }

  lemma StoreFrame(s: State, s': State, t: Thread, a: Addr, n: Node)
    requires t in s.pcs && t in s'.pcs && s' == Store(Goto(s, t, s'.pcs[t]), a, n)
    requires forall b :: Shared(s, b) ==> Shared(s', b)
    requires a in s.mem.nodes ==> Holder(s, t, a) || Holder(s', t, a)
    ensures Frame(s, s', t)
  {
    hide Shared;
  }

  lemma SameHeld(s: State, s': State, t: Thread)
    requires Frame(s, s', t) && HeldShared(s) && s'.pcs[t].Locked() == s.pcs[t].Locked()
    ensures HeldShared(s')
  {
    hide Shared, Kept;
    assert forall b :: b in s'.pcs[t].Locked() ==> Holder(s, t, b);
    HeldSharedAfter(s, s', t);
  }

  // ---- Steps that leave memory alone ---------------------------------------------------------------

  lemma OnlyPc(s: State, s': State, t: Thread)
    requires t in s.pcs && t in s'.pcs && s' == Goto(s, t, s'.pcs[t]) && SpareOnce(s)
    requires s'.pcs[t].Todo() == s.pcs[t].Todo() && s'.pcs[t].HasSpare() == s.pcs[t].HasSpare()
    requires s.pcs[t].HasSpare() ==> s'.pcs[t].spare == s.pcs[t].spare
    ensures Tree(s') == Tree(s) && Pends(s') == Pends(s) && Frame(s, s', t)
  {
    PendsAfter(s, s', t);
    TreeAfter(s, s', t);
  }

  /** The last node held is on the level of its place, and part of the tree. */
  lemma LastHeld(s: State, t: Thread)
    requires LocksOk(s) && HeldShared(s) && t in s.pcs && s.pcs[t].Locked() != []
    ensures var held := s.pcs[t].Locked(); var a := held[|held| - 1];
      Holder(s, t, a) && Shared(s, a) && s.mem.nodes[a].Level() == |held| - 1 && s.mem.nodes[a].lock == 1
  {
    assert LadderOk(s, s.pcs[t]);
    var held := s.pcs[t].Locked();
    assert Holder(s, t, held[|held| - 1]);
  }

  /** The separator that a splitter brings is never in the node that covers it. */
  lemma NoDuplicate(cfg: Config, s: State, t: Thread)
    requires Forest(cfg, Tree(s), Pends(s)) && LocksOk(s) && HeldShared(s) && PcsOk(cfg, s)
    requires t in s.pcs && s.pcs[t].In? && s.pcs[t].todo.Split? && s.pcs[t].image.Covers(s.pcs[t].todo.sep)
    ensures s.pcs[t].held != [] && Takes(Tree(s), s.pcs[t].todo, s.pcs[t].held[|s.pcs[t].held| - 1])
    ensures Arrays(cfg, s.pcs[t].image) && s.pcs[t].todo.sep !in s.pcs[t].image.keys[..s.pcs[t].image.last + 1]
  {
    hide Forest, LocksOk, HeldShared, PcOk, Tree, Pends, Shared;
    var pc := s.pcs[t];
    assert PcOk(cfg, s, pc);
    ImageIsNode(cfg, s, t);
    var a := pc.held[|pc.held| - 1];
    SharedIsInTree(s, a);
    PendsAt(s, t);
    ForestOk(cfg, Tree(s), Pends(s));
    TakerRoutes(cfg, Tree(s), Pends(s), t, a);
  }

  /** The image of a splitter inside a node is that node, one level above its last cut. */
  lemma ImageIsNode(cfg: Config, s: State, t: Thread)
    requires LocksOk(s) && HeldShared(s) && t in s.pcs && s.pcs[t].In? && PcOk(cfg, s, s.pcs[t])
    ensures var pc := s.pcs[t];
      && pc.held != [] && var a := pc.held[|pc.held| - 1];
      && Shared(s, a) && a in s.mem.nodes && s.mem.nodes[a] == pc.image
      && (pc.todo.Split? ==> pc.image.Inner? && pc.image.height == pc.todo.level)
  {
    hide Shared;
    LastHeld(s, t);
  }

  lemma SharedIsInTree(s: State, a: Addr)
    requires Shared(s, a)
    ensures a in s.mem.nodes && a in Tree(s).nodes && Tree(s).nodes[a] == s.mem.nodes[a] && Reachable(Pends(s), a)
  {
  }

  lemma PendsAt(s: State, t: Thread)
    requires t in s.pcs
    ensures t in Pends(s) <==> s.pcs[t].Todo().Split?
    ensures t in Pends(s) ==> Pends(s)[t] == s.pcs[t].Todo()
    ensures Tree(s).root == s.mem.root && Tree(s).items == s.mem.items
  {
  }

  lemma ForestOk(cfg: Config, h: Memory, ps: Pendings)
    requires Forest(cfg, h, ps)
    ensures cfg.Ok() && cfg.Bf() >= 4 && h.root in h.nodes
  {
    BfFacts(cfg);
  }

  lemma QuietPc(cfg: Config, s: State, step: Step, s': State)
    requires LocksOk(s) && HeldShared(s) && QuietMove(cfg, s, step, s') && PcOk(cfg, s, s.pcs[step.t])
    requires !step.Duplicate?
    ensures s' == Goto(s, step.t, s'.pcs[step.t])
    ensures var pc, pc' := s.pcs[step.t], s'.pcs[step.t];
      && pc'.Todo() == pc.Todo() && pc'.HasSpare() == pc.HasSpare() && (pc.HasSpare() ==> pc'.spare == pc.spare)
      && pc'.Locked() == pc.Locked()
  {
    if step.Skip? {
      LastHeld(s, step.t);
    }
  }

  /** A splitter that finds no level above its last cut has cut the root. */
  lemma NoLevelOwn(cfg: Config, s: State, step: Step, s': State)
    requires Forest(cfg, Tree(s), Pends(s)) && LocksOk(s) && HeldShared(s)
    requires step.NoLevel? && QuietMove(cfg, s, step, s') && PcOk(cfg, s, s.pcs[step.t])
    ensures PcOk(cfg, s', s'.pcs[step.t])
  {
    LastHeld(s, step.t);
    ForestOk(cfg, Tree(s), Pends(s));
    hide Forest, LocksOk, HeldShared;
    var held := s.pcs[step.t].held;
    assert s.pcs[step.t].Locked() == held;
    OneOnTop(cfg, Tree(s), Pends(s), held[|held| - 1]);
  }

  lemma QuietOwn(cfg: Config, s: State, step: Step, s': State)
    requires LocksOk(s) && HeldShared(s) && QuietMove(cfg, s, step, s') && PcOk(cfg, s, s.pcs[step.t])
    requires Tree(s') == Tree(s) && Pends(s') == Pends(s) && !step.Duplicate? && !step.NoLevel?
    ensures PcOk(cfg, s', s'.pcs[step.t])
  {
    hide Gathered, Reachable, Tree, Pends;
    if step.Read? {
      LastHeld(s, step.t);
      assert s.pcs[step.t].Locked() == s'.pcs[step.t].held;
    }
  }

  lemma QuietMoveOk(cfg: Config, s: State, step: Step, s': State)
    requires Forest(cfg, Tree(s), Pends(s)) && LocksOk(s) && HeldShared(s) && PcsOk(cfg, s) && SpareOnce(s)
    requires QuietMove(cfg, s, step, s')
    ensures Tree(s') == Tree(s) && Pends(s') == Pends(s) && Frame(s, s', step.t) && s'.mem == s.mem
    ensures PcOk(cfg, s', s'.pcs[step.t]) && SpareOnce(s') && HeldShared(s')
  {
    var t := step.t;
    assert PcOk(cfg, s, s.pcs[t]);
    if step.Duplicate? {
      NoDuplicate(cfg, s, t);
      assert false;
    }
    hide PcOk, Forest, LocksOk, Tree, Pends, PcsOk, SpareOnce;
    QuietPc(cfg, s, step, s');
    hide QuietMove;
    OnlyPc(s, s', t);
    SpareOnceAfter(s, s', t);
    assert forall a :: a in s'.pcs[t].Locked() ==> Holder(s, t, a);
    HeldSharedAfter(s, s', t);
    if step.NoLevel? {
      NoLevelOwn(cfg, s, step, s');
    } else {
      QuietOwn(cfg, s, step, s');
    }
  }

  // ---- Locking and releasing -----------------------------------------------------------------------

  ghost predicate Follows(cfg: Config, s: State, s': State) {
    && Forest(cfg, Tree(s'), Pends(s')) && ReaderSafe(cfg, s'.mem, s'.model)
    && Evolves(s.mem, s'.mem) && ItemsKept(s.mem, s'.mem)
  }

  lemma RelockSafe(cfg: Config, h: Memory, m: map<Key, Value>, a: Addr, lock: nat)
    requires ReaderSafe(cfg, h, m) && a in h.nodes
    ensures ReaderSafe(cfg, Put(h, a, Relock(h.nodes[a], lock)), m) && Evolves(h, Put(h, a, Relock(h.nodes[a], lock)))
  {
    var o, n := h.nodes[a], Relock(h.nodes[a], lock);
    assert Shape(cfg, o) && Shape(cfg, n) && Exact(h.items, m, o);
    if n.Leaf? {
      LocksKeepExact(h.items, m, o, n);
    } else {
      forall i | 0 <= i <= n.last
        ensures WeakLinkOk(h, n, i)
      {
        assert WeakLinkOk(h, h.nodes[a], i);
      }
    }
    hide ReaderSafe, Exact, Shape;
    PutReaderSafe(cfg, h, m, a, n);
  }

  lemma Relocked(cfg: Config, s: State, s': State, t: Thread, a: Addr, lock: nat)
    requires Forest(cfg, Tree(s), Pends(s)) && ReaderSafe(cfg, s.mem, s.model) && SpareOnce(s)
    requires t in s.pcs && t in s'.pcs && Shared(s, a)
    requires s' == Store(Goto(s, t, s'.pcs[t]), a, Relock(s.mem.nodes[a], lock))
    requires s'.pcs[t].Todo() == s.pcs[t].Todo() && !s.pcs[t].HasSpare() && !s'.pcs[t].HasSpare()
    requires Holder(s, t, a) || Holder(s', t, a)
    ensures Follows(cfg, s, s') && Frame(s, s', t) && SpareOnce(s')
  {
    PendsAfter(s, s', t);
    TreeAfter(s, s', t);
    assert Tree(s').nodes == Tree(s).nodes[a := Relock(Tree(s).nodes[a], lock)];
    assert Tree(s') == Put(Tree(s), a, Relock(Tree(s).nodes[a], lock));
    SharedGrows(s, s', t);
    hide Forest, ReaderSafe, Tree, Pends, Shared, Frame, SpareOnce;
    StoreFrame(s, s', t, a, Relock(s.mem.nodes[a], lock));
    SpareOnceAfter(s, s', t);
    RelockForest(cfg, Tree(s), Pends(s), a, lock);
    RelockSafe(cfg, s.mem, s.model, a, lock);
  }

  lemma LockOwn(cfg: Config, s: State, step: Step, s': State)
    requires LockMove(cfg, s, step, s') && PcOk(cfg, s, s.pcs[step.t])
    ensures PcOk(cfg, s', s'.pcs[step.t])
  {
    hide Shared, Reachable;
  }

  lemma TakePc(cfg: Config, s: State, step: Step, s': State, a: Addr)
    requires LockMove(cfg, s, step, s') && PcOk(cfg, s, s.pcs[step.t]) && a in s.mem.nodes && s.mem.nodes[a].lock == 0
    requires if step.TryLeaf? then step.node == a else step.Cas? && s.pcs[step.t].node == a
    ensures var t := step.t; var pc, pc' := s.pcs[t], s'.pcs[t];
      && s' == Store(Goto(s, t, pc'), a, Relock(s.mem.nodes[a], 1)) && Shared(s, a)
      && pc'.Todo() == pc.Todo() && !pc.HasSpare() && !pc'.HasSpare() && pc'.Locked() == pc.Locked() + [a]
  {
    hide Shared;
  }

  lemma TakeOk(cfg: Config, s: State, step: Step, s': State, a: Addr)
    requires Forest(cfg, Tree(s), Pends(s)) && ReaderSafe(cfg, s.mem, s.model) && SpareOnce(s) && HeldShared(s)
    requires LockMove(cfg, s, step, s') && PcOk(cfg, s, s.pcs[step.t]) && a in s.mem.nodes && s.mem.nodes[a].lock == 0
    requires if step.TryLeaf? then step.node == a else step.Cas? && s.pcs[step.t].node == a
    ensures Follows(cfg, s, s') && Frame(s, s', step.t) && SpareOnce(s') && HeldShared(s')
  {
    var t := step.t;
    TakePc(cfg, s, step, s', a);
    hide Forest, ReaderSafe, SpareOnce, Follows, Tree, Pends, PcOk, LockMove, Shared;
    assert Holder(s', t, a) by { assert s'.pcs[t].Locked()[|s.pcs[t].Locked()|] == a; }
    Relocked(cfg, s, s', t, a, 1);
    TakenShared(s, s', t, a);
  }

  lemma TakenShared(s: State, s': State, t: Thread, a: Addr)
    requires Frame(s, s', t) && HeldShared(s) && Shared(s, a) && s'.pcs[t].Locked() == s.pcs[t].Locked() + [a]
    ensures HeldShared(s')
  {
    hide Shared, Kept;
    assert forall b :: b in s.pcs[t].Locked() ==> Holder(s, t, b);
    HeldSharedAfter(s, s', t);
  }

  lemma GivePc(cfg: Config, s: State, step: Step, s': State)
    requires LockMove(cfg, s, step, s') && PcOk(cfg, s, s.pcs[step.t]) && (step.Retreat? || step.Release?)
    ensures var t := step.t; var pc, pc' := s.pcs[t], s'.pcs[t];
      && pc.Locked() != [] && var a := pc.Locked()[|pc.Locked()| - 1];
      && a in s.mem.nodes && s' == Store(Goto(s, t, pc'), a, Relock(s.mem.nodes[a], Decremented(s.mem.nodes[a].lock)))
      && pc'.Todo() == pc.Todo() && !pc.HasSpare() && !pc'.HasSpare()
      && pc'.Locked() == pc.Locked()[..|pc.Locked()| - 1]
  {
    hide Shared;
  }

  lemma GiveOk(cfg: Config, s: State, step: Step, s': State)
    requires Forest(cfg, Tree(s), Pends(s)) && ReaderSafe(cfg, s.mem, s.model) && SpareOnce(s) && HeldShared(s)
    requires LocksOk(s) && LockMove(cfg, s, step, s') && PcOk(cfg, s, s.pcs[step.t]) && (step.Retreat? || step.Release?)
    ensures Follows(cfg, s, s') && Frame(s, s', step.t) && SpareOnce(s') && HeldShared(s')
  {
    var t := step.t;
    GivePc(cfg, s, step, s');
    LastHeld(s, t);
    hide Forest, ReaderSafe, SpareOnce, Follows, Tree, Pends, LocksOk, PcOk, Shared, LockMove;
    var a := s.pcs[t].Locked()[|s.pcs[t].Locked()| - 1];
    Relocked(cfg, s, s', t, a, Decremented(s.mem.nodes[a].lock));
    assert forall b :: b in s'.pcs[t].Locked() ==> Holder(s, t, b);
    HeldSharedAfter(s, s', t);
  }

  lemma LockedIsThere(s: State, a: Addr)
    requires Shared(s, a)
    ensures a in s.mem.nodes
  {
  }

  lemma LockMoveOk(cfg: Config, s: State, step: Step, s': State)
    requires Forest(cfg, Tree(s), Pends(s)) && ReaderSafe(cfg, s.mem, s.model) && SpareOnce(s) && HeldShared(s)
    requires LocksOk(s) && LockMove(cfg, s, step, s') && PcOk(cfg, s, s.pcs[step.t])
    ensures Follows(cfg, s, s') && Frame(s, s', step.t) && SpareOnce(s') && HeldShared(s')
    ensures PcOk(cfg, s', s'.pcs[step.t])
  {
    hide Forest, ReaderSafe, SpareOnce, Tree, Pends, LocksOk;
    LockOwn(cfg, s, step, s');
    if step.Retreat? || step.Release? {
      GiveOk(cfg, s, step, s');
    } else {
      var a := if step.TryLeaf? then step.node else s.pcs[step.t].node;
      LockedIsThere(s, a);
      if s.mem.nodes[a].lock == 0 {
        TakeOk(cfg, s, step, s', a);
      } else {
        OnlyPc(s, s', step.t);
        SpareOnceAfter(s, s', step.t);
        assert forall b :: b in s'.pcs[step.t].Locked() ==> Holder(s, step.t, b);
        HeldSharedAfter(s, s', step.t);
      }
    }
  }

  // ---- New nodes -----------------------------------------------------------------------------------

  lemma WeakInMemory(s: State, ps: Pendings, n: Node)
    requires (n.Inner? ==> n.last < |n.keys| && n.last < |n.kids|) && Children(Tree(s), ps, n)
    ensures OwnWeakLinks(s.mem, n)
  {
    if n.Inner? {
      forall i | 0 <= i <= n.last
        ensures WeakLinkOk(s.mem, n, i)
      {
        assert ChildOk(Tree(s), ps, n, i);
      }
    }
  }

  /** The tree does not see a new node that its writer keeps to itself. */
  lemma Added(cfg: Config, s: State, s': State, t: Thread, d: Addr, n: Node)
    requires Forest(cfg, Tree(s), Pends(s)) && ReaderSafe(cfg, s.mem, s.model) && SpareOnce(s) && HeldShared(s)
    requires t in s.pcs && t in s'.pcs && d !in s.mem.nodes && s' == Store(Goto(s, t, s'.pcs[t]), d, n)
    requires s'.pcs[t].Todo() == s.pcs[t].Todo() && s'.pcs[t].Locked() == s.pcs[t].Locked()
    requires !s.pcs[t].HasSpare() && s'.pcs[t].HasSpare() && s'.pcs[t].spare == d
    requires Shape(cfg, n) && OwnWeakLinks(s.mem, n) && Exact(s.mem.items, s.model, n)
    ensures Follows(cfg, s, s') && Frame(s, s', t) && SpareOnce(s') && HeldShared(s')
    ensures Tree(s') == Tree(s) && Pends(s') == Pends(s)
  {
    PendsAfter(s, s', t);
    TreeAfter(s, s', t);
    assert d !in Tree(s').nodes;
    assert Tree(s').nodes == Tree(s).nodes;
    assert s.mem.root in s.mem.nodes;
    SharedGrows(s, s', t);
    hide Forest, OwnWeakLinks, Shape, Exact, ReaderSafe, Tree, Pends, Shared, Frame, SpareOnce, HeldShared;
    PutReaderSafe(cfg, s.mem, s.model, d, n);
    StoreFrame(s, s', t, d, n);
    SpareOnceAfter(s, s', t);
    SameHeld(s, s', t);
  }

  lemma AddPc(cfg: Config, s: State, step: Step, s': State)
    requires AddMove(cfg, s, step, s')
    ensures step.t in s.pcs && step.t in s'.pcs
    ensures var t := step.t; var pc, pc' := s.pcs[t], s'.pcs[t];
      && step.node !in s.mem.nodes && s' == Store(Goto(s, t, pc'), step.node, s'.mem.nodes[step.node])
      && pc'.Todo() == pc.Todo() && pc'.Locked() == pc.Locked()
      && !pc.HasSpare() && pc'.HasSpare() && pc'.spare == step.node
  {
    hide Gathered, LeafParts, Widened, LeftHalf, RightHalf;
  }

  /** The parts of a leaf. */
  lemma LeafHalves(cfg: Config, s: State, n: Node, es: seq<Entry>, l: Node, r: Node)
    requires LeafShape(cfg, n) && Exact(s.mem.items, s.model, n) && Gathered(s.mem.items, n, |n.blocks|, es)
    requires LeafParts(cfg, n, es, l, r)
    ensures LeafShape(cfg, l) && LeafShape(cfg, r)
    ensures Exact(s.mem.items, s.model, l) && Exact(s.mem.items, s.model, r)
  {
    hide Exact, Gathered, PartOf;
    HalvesExact(s.mem.items, s.model, n, es, l, r);
  }

  lemma CutLeafParts(cfg: Config, s: State, step: Step, s': State)
    requires ReaderSafe(cfg, s.mem, s.model) && HeldShared(s) && LocksOk(s)
    requires AddMove(cfg, s, step, s') && PcOk(cfg, s, s.pcs[step.t]) && step.CutLeaf?
    ensures |s.pcs[step.t].held| == 1 && LeafShape(cfg, step.left) && LeafShape(cfg, step.right)
    ensures Exact(s.mem.items, s.model, step.left) && Exact(s.mem.items, s.model, step.right)
  {
    var pc := s.pcs[step.t];
    LastHeld(s, step.t);
    var a := pc.held[|pc.held| - 1];
    assert Shape(cfg, s.mem.nodes[a]) && Exact(s.mem.items, s.model, s.mem.nodes[a]);
    hide ReaderSafe, HeldShared, LocksOk, Exact, Gathered;
    LeafHalves(cfg, s, pc.image, step.es, step.left, step.right);
  }

  lemma CutLeafOwn(cfg: Config, s: State, step: Step, s': State)
    requires AddMove(cfg, s, step, s') && PcOk(cfg, s, s.pcs[step.t]) && step.CutLeaf? && |s.pcs[step.t].held| == 1
    requires LeafShape(cfg, step.left) && LeafShape(cfg, step.right) && Exact(s.mem.items, s.model, step.left)
    ensures PcOk(cfg, s', s'.pcs[step.t]) && s'.mem.nodes[step.node] == step.right
  {
    hide Exact, Gathered, PartOf;
  }

  lemma CutLeafOk(cfg: Config, s: State, step: Step, s': State)
    requires Forest(cfg, Tree(s), Pends(s)) && ReaderSafe(cfg, s.mem, s.model) && SpareOnce(s) && HeldShared(s)
    requires LocksOk(s) && AddMove(cfg, s, step, s') && PcOk(cfg, s, s.pcs[step.t]) && step.CutLeaf?
    ensures Follows(cfg, s, s') && Frame(s, s', step.t) && SpareOnce(s') && HeldShared(s')
    ensures PcOk(cfg, s', s'.pcs[step.t])
  {
    hide Forest, ReaderSafe, SpareOnce, HeldShared, LocksOk, PcOk, AddMove, Exact, Tree, Pends, Shared, Frame;
    AddPc(cfg, s, step, s');
    CutLeafParts(cfg, s, step, s');
    CutLeafOwn(cfg, s, step, s');
    Added(cfg, s, s', step.t, step.node, step.right);
  }

  lemma CutInnerParts(cfg: Config, s: State, step: Step, s': State)
    requires Forest(cfg, Tree(s), Pends(s)) && HeldShared(s) && PcsOk(cfg, s)
    requires LocksOk(s) && AddMove(cfg, s, step, s') && step.CutInner?
    ensures var n := s.pcs[step.t].image; var r := s'.mem.nodes[step.node];
      && n.height == s.pcs[step.t].todo.level && n.last + 1 == cfg.Bf()
      && Shape(cfg, r) && OwnWeakLinks(s.mem, r) && r.Inner?
  {
    hide Forest, HeldShared, LocksOk, Tree, Pends, Shared, Takes;
    var pc := s.pcs[step.t];
    assert PcOk(cfg, s, pc);
    NoDuplicate(cfg, s, step.t);
    LastHeld(s, step.t);
    hide PcsOk, PcOk;
    RightIsSafe(cfg, s, step.t, pc.held[|pc.held| - 1]);
  }

  lemma RightIsSafe(cfg: Config, s: State, t: Thread, a: Addr)
    requires Forest(cfg, Tree(s), Pends(s)) && t in s.pcs && s.pcs[t].In? && s.pcs[t].todo.Split? && Shared(s, a)
    requires Arrays(cfg, s.pcs[t].image) && s.pcs[t].image.last + 1 >= cfg.Bf()
    requires Takes(Tree(s), s.pcs[t].todo, a) && s.mem.nodes[a] == s.pcs[t].image
    ensures var n := s.pcs[t].image; var r := RightHalf(Widened(n, s.pcs[t].todo), cfg.Bf() / 2);
      && n.height == s.pcs[t].todo.level && Shape(cfg, r) && OwnWeakLinks(s.mem, r) && r.Inner?
  {
    SharedIsInTree(s, a);
    PendsAt(s, t);
    hide Forest, Tree, Pends, Shared;
    Overfull(cfg, Tree(s), Pends(s), t, a);
    WeakInMemory(s, Pends(s) - {t}, RightHalf(Widened(s.pcs[t].image, s.pcs[t].todo), cfg.Bf() / 2));
  }

  lemma CutInnerOk(cfg: Config, s: State, step: Step, s': State)
    requires Forest(cfg, Tree(s), Pends(s)) && ReaderSafe(cfg, s.mem, s.model) && SpareOnce(s) && HeldShared(s)
    requires LocksOk(s) && AddMove(cfg, s, step, s') && PcsOk(cfg, s) && step.CutInner?
    ensures Follows(cfg, s, s') && Frame(s, s', step.t) && SpareOnce(s') && HeldShared(s')
    ensures PcOk(cfg, s', s'.pcs[step.t])
  {
    var t := step.t;
    CutInnerParts(cfg, s, step, s');
    AddPc(cfg, s, step, s');
    assert PcOk(cfg, s, s.pcs[t]);
    hide Forest, ReaderSafe, SpareOnce, HeldShared, LocksOk, PcsOk, Tree, Pends, Shared, OwnWeakLinks, Shape;
    hide AddMove, PcOk;
    Added(cfg, s, s', t, step.node, s'.mem.nodes[step.node]);
    CutInnerOwn(cfg, s, step, s');
  }

  lemma CutInnerOwn(cfg: Config, s: State, step: Step, s': State)
    requires AddMove(cfg, s, step, s') && PcOk(cfg, s, s.pcs[step.t]) && step.CutInner?
    requires s.pcs[step.t].image.height == s.pcs[step.t].todo.level && s.pcs[step.t].image.last + 1 == cfg.Bf()
    ensures PcOk(cfg, s', s'.pcs[step.t])
  {
    hide Widened, LeftHalf, RightHalf;
  }

  lemma NewRootOwn(cfg: Config, s: State, step: Step, s': State)
    requires AddMove(cfg, s, step, s') && PcOk(cfg, s, s.pcs[step.t]) && step.NewRoot?
    ensures PcOk(cfg, s', s'.pcs[step.t])
  {
    hide FaunusStructure.NewRoot;
  }

  lemma NewRootOk(cfg: Config, s: State, step: Step, s': State)
    requires Forest(cfg, Tree(s), Pends(s)) && ReaderSafe(cfg, s.mem, s.model) && SpareOnce(s) && HeldShared(s)
    requires LocksOk(s) && AddMove(cfg, s, step, s') && PcOk(cfg, s, s.pcs[step.t]) && step.NewRoot?
    ensures Follows(cfg, s, s') && Frame(s, s', step.t) && SpareOnce(s') && HeldShared(s')
    ensures PcOk(cfg, s', s'.pcs[step.t])
  {
    var t := step.t;
    LastHeld(s, t);
    ForestOk(cfg, Tree(s), Pends(s));
    assert s.pcs[t].Locked() == s.pcs[t].held && Pends(s)[t] == s.pcs[t].todo;
    assert step.node !in Tree(s).nodes;
    AddPc(cfg, s, step, s');
    NewRootOwn(cfg, s, step, s');
    var n := s'.mem.nodes[step.node];
    assert n == FaunusStructure.NewRoot(cfg, Tree(s).root, Pends(s)[t]) && n.Inner?;
    assert s.pcs[t].todo.level > Tree(s).nodes[Tree(s).root].Level();
    hide Forest, ReaderSafe, SpareOnce, HeldShared, LocksOk, OwnWeakLinks, Shape, Children, AddMove, PcOk, Shared;
    hide FaunusStructure.NewRoot;
    hide Tree, Pends;
    RootForest(cfg, Tree(s), Pends(s), t, step.node);
    WeakInMemory(s, Pends(s) - {t}, n);
    Added(cfg, s, s', t, step.node, n);
  }

  // ---- Changes of the tree -------------------------------------------------------------------------

  /** The last cut of a splitter is a node it still holds. */
  lemma CutIsHeld(cfg: Config, s: State, u: Thread)
    requires LocksOk(s) && HeldShared(s) && u in s.pcs && PcOk(cfg, s, s.pcs[u]) && u in Pends(s)
    ensures var p := Pends(s)[u]; var held := s.pcs[u].held;
      && p.Split? && 1 <= p.level <= |held|
      && var b := held[p.level - 1];
      Holder(s, u, b) && Shared(s, b) && s.mem.nodes[b].hi == p.sep && s.mem.nodes[b].Level() + 1 == p.level
  {
    var pc := s.pcs[u];
    var p := pc.Todo();
    assert TodoOk(s, pc.held, p, p.level);
    assert pc.Locked()[p.level - 1] == pc.held[p.level - 1];
    assert LadderOk(s, pc) && Holder(s, u, pc.held[p.level - 1]);
  }

  /** A node that a splitter is inside of is whole: nobody else has cut it. */
  lemma InsideIsWhole(cfg: Config, s: State, t: Thread, a: Addr)
    requires Forest(cfg, Tree(s), Pends(s)) && LocksOk(s) && HeldShared(s) && PcsOk(cfg, s)
    requires Holder(s, t, a) && t in s.pcs && (s.pcs[t].Half? || s.pcs[t].In?)
      && a == s.pcs[t].held[|s.pcs[t].held| - 1]
    ensures a in Tree(s).nodes && Whole(Tree(s), Pends(s) - {t}, a) && Reachable(Pends(s), a)
  {
    assert Shared(s, a);
    assert Shape(cfg, Tree(s).nodes[a]) && Disjoint(Tree(s));
    forall u | u in Pends(s) - {t} && (Pends(s) - {t})[u].Split?
      ensures var p := (Pends(s) - {t})[u]; !(p.level == Tree(s).nodes[a].Level() + 1 && p.sep == Tree(s).nodes[a].hi)
    {
      assert PcOk(cfg, s, s.pcs[u]);
      CutIsHeld(cfg, s, u);
      var b := s.pcs[u].held[Pends(s)[u].level - 1];
      assert Shape(cfg, Tree(s).nodes[b]);
      assert b == a ==> Holder(s, u, a);
    }
  }

  lemma TreeMover(cfg: Config, s: State, step: Step, s': State)
    requires TreeMove(cfg, s, step, s') && PcsOk(cfg, s)
    ensures step.t in s.pcs && PcOk(cfg, s, s.pcs[step.t])
  {
    hide PcOk;
  }

  lemma EnterPc(cfg: Config, s: State, step: Step, s': State)
    requires TreeMove(cfg, s, step, s') && PcOk(cfg, s, s.pcs[step.t]) && step.Enter?
    ensures var t := step.t; var pc, pc' := s.pcs[t], s'.pcs[t];
      && pc.In? && pc.todo.Split? && pc.Locked() == pc.held == pc'.Locked() && pc.held != []
      && pc.image.Covers(pc.todo.sep) && Arrays(cfg, pc.image) && pc.image.last + 1 < cfg.Bf()
      && pc'.Todo() == NoSplit && !pc'.HasSpare()
      && var a := pc.held[|pc.held| - 1];
      && a in s.mem.nodes && s.mem.nodes[a] == pc.image
      && s' == Store(Goto(s, t, pc'), a, WithEntry(pc.image, pc.todo.sep, pc.todo.right))
  {
    hide WithEntry;
  }

  lemma EnterOk(cfg: Config, s: State, step: Step, s': State)
    requires Forest(cfg, Tree(s), Pends(s)) && ReaderSafe(cfg, s.mem, s.model) && SpareOnce(s) && HeldShared(s)
    requires LocksOk(s) && TreeMove(cfg, s, step, s') && PcsOk(cfg, s) && step.Enter?
    ensures Follows(cfg, s, s') && Frame(s, s', step.t) && SpareOnce(s') && HeldShared(s')
  {
    hide Forest, ReaderSafe, SpareOnce, HeldShared, LocksOk, PcOk, PcsOk, TreeMove;
    hide Tree, Pends, Shared, Frame, Follows, Takes, Arrays, WithEntry;
    TreeMover(cfg, s, step, s');
    EnterPc(cfg, s, step, s');
    NoDuplicate(cfg, s, step.t);
    LastHeld(s, step.t);
    Entered(cfg, s, s', step.t);
  }

  lemma Entered(cfg: Config, s: State, s': State, t: Thread)
    requires Forest(cfg, Tree(s), Pends(s)) && ReaderSafe(cfg, s.mem, s.model) && SpareOnce(s) && HeldShared(s)
    requires t in s.pcs && t in s'.pcs && s.pcs[t].In? && s.pcs[t].todo.Split? && s.pcs[t].held != []
    requires s'.pcs[t].Todo() == NoSplit && !s'.pcs[t].HasSpare() && s'.pcs[t].Locked() == s.pcs[t].Locked()
    requires Arrays(cfg, s.pcs[t].image) && s.pcs[t].image.last + 1 < cfg.Bf()
    requires var pc := s.pcs[t]; var a := pc.held[|pc.held| - 1];
      && Shared(s, a) && Holder(s, t, a) && Takes(Tree(s), pc.todo, a) && s.mem.nodes[a] == pc.image
      && s' == Store(Goto(s, t, s'.pcs[t]), a, WithEntry(pc.image, pc.todo.sep, pc.todo.right))
    ensures Follows(cfg, s, s') && Frame(s, s', t) && SpareOnce(s') && HeldShared(s')
  {
    hide Forest, ReaderSafe, SpareOnce, HeldShared, Tree, Pends, Shared, Frame, Follows, Takes;
    var pc := s.pcs[t];
    var a := pc.held[|pc.held| - 1];
    SharedIsInTree(s, a);
    PendsAt(s, t);
    EnterForest(cfg, Tree(s), Pends(s), t, a);
    var w := WithEntry(pc.image, pc.todo.sep, pc.todo.right);
    assert w.Inner? && w.Level() == pc.image.Level() && w.lo == pc.image.lo && w.hi == pc.image.hi;
    hide Children, Shape, WithEntry;
    WeakInMemory(s, Pends(s) - {t}, w);
    Rewritten(cfg, s, s', t, a, w);
  }

  /** A held node is written back with its level, its lower fence and not more than its upper fence. */
  lemma Rewritten(cfg: Config, s: State, s': State, t: Thread, a: Addr, w: Node)
    requires ReaderSafe(cfg, s.mem, s.model) && SpareOnce(s) && HeldShared(s)
    requires t in s.pcs && t in s'.pcs && Holder(s, t, a) && s' == Store(Goto(s, t, s'.pcs[t]), a, w)
    requires s'.pcs[t].Todo() == NoSplit && !s.pcs[t].HasSpare() && !s'.pcs[t].HasSpare()
    requires s'.pcs[t].Locked() == s.pcs[t].Locked()
    requires Shape(cfg, w) && OwnWeakLinks(s.mem, w) && Exact(s.mem.items, s.model, w) && a in s.mem.nodes
    requires w.Level() == s.mem.nodes[a].Level() && w.lo == s.mem.nodes[a].lo && w.hi <= s.mem.nodes[a].hi
    requires Forest(cfg, Put(Tree(s), a, w), Pends(s) - {t})
    ensures Follows(cfg, s, s') && Frame(s, s', t) && SpareOnce(s') && HeldShared(s')
  {
    PendsAfter(s, s', t);
    TreeAfter(s, s', t);
    assert Shared(s, a);
    assert Tree(s').nodes == Tree(s).nodes[a := w];
    assert Tree(s') == Put(Tree(s), a, w);
    SharedGrows(s, s', t);
    hide Forest, OwnWeakLinks, Shape, Exact, ReaderSafe, Tree, Pends, Shared, Frame, SpareOnce, HeldShared;
    PutReaderSafe(cfg, s.mem, s.model, a, w);
    StoreFrame(s, s', t, a, w);
    SpareOnceAfter(s, s', t);
    SameHeld(s, s', t);
  }

  lemma JoinedTree(s: State, s': State, t: Thread, a: Addr, l: Node)
    requires SpareOnce(s) && Shared(s, a) && t in s.pcs && t in s'.pcs && s' == Store(Goto(s, t, s'.pcs[t]), a, l)
    requires s.pcs[t].HasSpare() && !s'.pcs[t].HasSpare() && s.pcs[t].spare in s.mem.nodes
    ensures var d := s.pcs[t].spare; Tree(s') == Put(Put(Tree(s), d, s.mem.nodes[d]), a, l)
  {
    var d := s.pcs[t].spare;
    TreeAfter(s, s', t);
    assert d in Privates(s);
    assert Tree(s').nodes == Tree(s).nodes[d := s.mem.nodes[d]][a := l];
  }

  /** The left part is written: both parts belong to the tree now, and their separator is pending. */
  lemma Joined(cfg: Config, s: State, s': State, t: Thread, a: Addr, l: Node)
    requires ReaderSafe(cfg, s.mem, s.model) && SpareOnce(s) && HeldShared(s)
    requires t in s.pcs && t in s'.pcs && Holder(s, t, a) && s' == Store(Goto(s, t, s'.pcs[t]), a, l)
    requires s.pcs[t].HasSpare() && !s'.pcs[t].HasSpare() && s'.pcs[t].Locked() == s.pcs[t].Locked()
    requires s'.pcs[t].Todo().Split? && s'.pcs[t].Todo().right == s.pcs[t].spare
    requires Shape(cfg, l) && OwnWeakLinks(s.mem, l) && Exact(s.mem.items, s.model, l) && a in s.mem.nodes
    requires l.Level() == s.mem.nodes[a].Level() && l.lo == s.mem.nodes[a].lo && l.hi <= s.mem.nodes[a].hi
    requires s.pcs[t].spare in s.mem.nodes
    requires Forest(cfg, Put(Put(Tree(s), s.pcs[t].spare, s.mem.nodes[s.pcs[t].spare]), a, l),
                    Pends(s)[t := s'.pcs[t].Todo()])
    ensures Follows(cfg, s, s') && Frame(s, s', t) && SpareOnce(s') && HeldShared(s')
  {
    hide Forest, OwnWeakLinks, Shape, Exact, ReaderSafe, Tree, Pends, Shared, Frame, SpareOnce;
    PendsAfter(s, s', t);
    assert Shared(s, a);
    JoinedTree(s, s', t, a, l);
    SharedGrows(s, s', t);
    PutReaderSafe(cfg, s.mem, s.model, a, l);
    StoreFrame(s, s', t, a, l);
    SpareOnceAfter(s, s', t);
    SameHeld(s, s', t);
  }

  lemma BackPc(cfg: Config, s: State, step: Step, s': State)
    requires TreeMove(cfg, s, step, s') && PcOk(cfg, s, s.pcs[step.t]) && step.WriteBack?
    ensures var t := step.t; var pc, pc' := s.pcs[t], s'.pcs[t];
      && pc.Half? && pc.Locked() == pc.held == pc'.Locked() && pc.held != [] && HalfOk(cfg, s, pc)
      && pc' == Seek(pc.held, pc.up) && s' == Store(Goto(s, t, pc'), pc.held[|pc.held| - 1], pc.image)
  {
    hide HalfOk;
  }

  lemma SpareIsPrivate(s: State, t: Thread)
    requires t in s.pcs && s.pcs[t].HasSpare()
    ensures s.pcs[t].spare !in Tree(s).nodes
  {
    assert s.pcs[t].spare in Privates(s);
  }

  lemma LeafBackOk(cfg: Config, s: State, step: Step, s': State)
    requires Forest(cfg, Tree(s), Pends(s)) && ReaderSafe(cfg, s.mem, s.model) && SpareOnce(s) && HeldShared(s)
    requires LocksOk(s) && TreeMove(cfg, s, step, s') && PcsOk(cfg, s) && step.WriteBack?
      && |s.pcs[step.t].Locked()| == 1
    ensures Follows(cfg, s, s') && Frame(s, s', step.t) && SpareOnce(s') && HeldShared(s')
  {
    var t := step.t;
    var pc := s.pcs[t];
    hide Forest, ReaderSafe, SpareOnce, HeldShared, LocksOk, PcOk, TreeMove;
    hide Tree, Pends, Shared, Frame, Follows, Whole, Reachable, Exact;
    assert PcOk(cfg, s, pc);
    BackPc(cfg, s, step, s');
    LastHeld(s, t);
    var a, d := pc.held[0], pc.spare;
    InsideIsWhole(cfg, s, t, a);
    SharedIsInTree(s, a);
    PendsAt(s, t);
    SpareIsPrivate(s, t);
    assert Pends(s) - {t} == Pends(s);
    LeafForest(cfg, Tree(s), Pends(s), t, a, pc.image, d, s.mem.nodes[d]);
    Joined(cfg, s, s', t, a, pc.image);
  }

  lemma HalvesAreParts(cfg: Config, s: State, t: Thread, a: Addr)
    requires Forest(cfg, Tree(s), Pends(s)) && t in s.pcs && s.pcs[t].Half? && HalfOk(cfg, s, s.pcs[t]) && Shared(s, a)
    requires |s.pcs[t].held| > 1 && a == s.pcs[t].held[|s.pcs[t].held| - 1]
    ensures var pc := s.pcs[t]; var l, r := pc.image, s.mem.nodes[pc.spare];
      && pc.todo.Split? && Takes(Tree(s), pc.todo, a) && PartsOf(cfg, Tree(s), Pends(s) - {t}, a, l, r)
      && l.Inner? && pc.up == Split(r.lo, pc.spare, r.Level() + 1)
  {
    hide Forest, Tree, Pends, Shared, WithEntry, Roomier;
    SharedIsInTree(s, a);
    PendsAt(s, t);
    Overfull(cfg, Tree(s), Pends(s), t, a);
  }

  lemma InnerBackOk(cfg: Config, s: State, step: Step, s': State)
    requires Forest(cfg, Tree(s), Pends(s)) && ReaderSafe(cfg, s.mem, s.model) && SpareOnce(s) && HeldShared(s)
    requires LocksOk(s) && TreeMove(cfg, s, step, s') && PcsOk(cfg, s) && step.WriteBack?
      && |s.pcs[step.t].Locked()| > 1
    ensures Follows(cfg, s, s') && Frame(s, s', step.t) && SpareOnce(s') && HeldShared(s')
  {
    var t := step.t;
    var pc := s.pcs[t];
    hide Forest, ReaderSafe, SpareOnce, HeldShared, LocksOk, PcOk, PcsOk, TreeMove;
    hide Tree, Pends, Shared, Frame, Follows, Whole, Reachable;
    TreeMover(cfg, s, step, s');
    BackPc(cfg, s, step, s');
    LastHeld(s, t);
    var a, d := pc.held[|pc.held| - 1], pc.spare;
    HalvesAreParts(cfg, s, t, a);
    hide HalfOk, Takes;
    InsideIsWhole(cfg, s, t, a);
    InnerJoined(cfg, s, s', t, a);
  }

  lemma InnerJoined(cfg: Config, s: State, s': State, t: Thread, a: Addr)
    requires Forest(cfg, Tree(s), Pends(s)) && ReaderSafe(cfg, s.mem, s.model) && SpareOnce(s) && HeldShared(s)
    requires t in s.pcs && t in s'.pcs && s.pcs[t].Half? && s.pcs[t].todo.Split? && Holder(s, t, a) && Shared(s, a)
    requires var pc := s.pcs[t];
      && s'.pcs[t] == Seek(pc.held, pc.up) && s' == Store(Goto(s, t, s'.pcs[t]), a, pc.image)
      && pc.spare in s.mem.nodes && var r := s.mem.nodes[pc.spare];
      && Takes(Tree(s), pc.todo, a) && PartsOf(cfg, Tree(s), Pends(s) - {t}, a, pc.image, r)
      && pc.image.Inner? && pc.up == Split(r.lo, pc.spare, r.Level() + 1)
    requires a in Tree(s).nodes && Whole(Tree(s), Pends(s) - {t}, a) && Reachable(Pends(s), a)
    ensures Follows(cfg, s, s') && Frame(s, s', t) && SpareOnce(s') && HeldShared(s')
  {
    hide Forest, ReaderSafe, SpareOnce, HeldShared, Tree, Pends, Shared, Frame, Follows, Whole, Reachable, Takes;
    SharedIsInTree(s, a);
    PendsAt(s, t);
    SpareIsPrivate(s, t);
    SplitForest(cfg, Tree(s), Pends(s), t, a, s.pcs[t].image, s.pcs[t].spare, s.mem.nodes[s.pcs[t].spare]);
    hide Children;
    WeakInMemory(s, Pends(s) - {t}, s.pcs[t].image);
    Joined(cfg, s, s', t, a, s.pcs[t].image);
  }

  lemma WriteBackOwn(cfg: Config, s: State, step: Step, s': State)
    requires TreeMove(cfg, s, step, s') && PcOk(cfg, s, s.pcs[step.t]) && step.WriteBack?
    ensures PcOk(cfg, s', s'.pcs[step.t])
  {
  }

  /** The root CAS always succeeds. */
  lemma CasRootPc(cfg: Config, s: State, step: Step, s': State)
    requires TreeMove(cfg, s, step, s') && PcOk(cfg, s, s.pcs[step.t]) && step.CasRoot?
    ensures var t := step.t; var pc, pc' := s.pcs[t], s'.pcs[t];
      && pc.Swap? && pc.seen == s.mem.root && pc' == Unwind(pc.held) && pc.Locked() == pc'.Locked() == pc.held
      && pc.held != [] && pc.held[|pc.held| - 1] == s.mem.root && pc.todo.Split? && pc.todo.level == |pc.held|
      && pc.spare in s.mem.nodes && cfg.Bf() >= 2 && s.mem.nodes[pc.spare].lo == 0
      && s.mem.nodes[pc.spare] == FaunusStructure.NewRoot(cfg, s.mem.root, pc.todo)
      && s' == Goto(s, t, pc').(mem := s.mem.(root := pc.spare))
  {
  }

  lemma CasRootTree(s: State, s': State, t: Thread, d: Addr)
    requires SpareOnce(s) && t in s.pcs && t in s'.pcs && s' == Goto(s, t, s'.pcs[t]).(mem := s.mem.(root := d))
    requires s.pcs[t].HasSpare() && s.pcs[t].spare == d && d in s.mem.nodes && !s'.pcs[t].HasSpare()
    ensures Tree(s') == Put(Tree(s), d, s.mem.nodes[d]).(root := d)
  {
    TreeAfter(s, s', t);
    assert d in Privates(s);
    assert Tree(s').nodes == Tree(s).nodes[d := s.mem.nodes[d]];
  }

  lemma CasRootSafe(cfg: Config, h: Memory, m: map<Key, Value>, d: Addr)
    requires ReaderSafe(cfg, h, m) && d in h.nodes && h.nodes[d].lo == 0
    ensures var g := h.(root := d); ReaderSafe(cfg, g, m) && Evolves(h, g) && ItemsKept(h, g)
  {
    var g := h.(root := d);
    forall b, i | b in g.nodes && g.nodes[b].Inner? && 0 <= i <= g.nodes[b].last
      ensures WeakLinkOk(g, g.nodes[b], i)
    {
      assert WeakLinkOk(h, h.nodes[b], i);
    }
  }

  lemma CasRootOk(cfg: Config, s: State, step: Step, s': State)
    requires Forest(cfg, Tree(s), Pends(s)) && ReaderSafe(cfg, s.mem, s.model) && SpareOnce(s) && HeldShared(s)
    requires LocksOk(s) && TreeMove(cfg, s, step, s') && PcOk(cfg, s, s.pcs[step.t]) && step.CasRoot?
    ensures Follows(cfg, s, s') && Frame(s, s', step.t) && SpareOnce(s') && HeldShared(s')
  {
    var t := step.t;
    var pc := s.pcs[t];
    hide Forest, ReaderSafe, SpareOnce, HeldShared, LocksOk, PcOk, TreeMove, Tree, Pends, Shared, Reachable;
    hide FaunusStructure.NewRoot, Children, Frame;
    CasRootPc(cfg, s, step, s');
    LastHeld(s, t);
    SharedIsInTree(s, s.mem.root);
    PendsAt(s, t);
    PendsAfter(s, s', t);
    SpareIsPrivate(s, t);
    CasRootTree(s, s', t, pc.spare);
    RootForest(cfg, Tree(s), Pends(s), t, pc.spare);
    CasRootSafe(cfg, s.mem, s.model, pc.spare);
    CasRootFrame(s, s', t);
    SpareOnceAfter(s, s', t);
    SameHeld(s, s', t);
  }

  lemma CasRootFrame(s: State, s': State, t: Thread)
    requires t in s.pcs && t in s'.pcs && Holder(s, t, s.mem.root) && SpareOnce(s) && s.pcs[t].HasSpare()
    requires !s'.pcs[t].HasSpare() && s'.pcs[t].Todo() == NoSplit
    requires s' == Goto(s, t, s'.pcs[t]).(mem := s.mem.(root := s.pcs[t].spare))
    ensures Frame(s, s', t)
  {
    hide Shared;
    SharedGrows(s, s', t);
  }

  // ---- Inserts and updates ---------------------------------------------------------------------------

  lemma ExactAfterUpsert(items: map<Addr, Item>, m: map<Key, Value>, n: Node, x: Addr, it: Item)
    requires x !in items && Exact(items, m, n) && !n.Covers(it.key)
    ensures Exact(items[x := it], m[it.key := it.value], n)
  {
    NewItemKeepsExact(items, m, n, x, it);
    OtherLeafExact(items[x := it], m, n, it.key, it.value);
  }

  lemma UpsertedLeaf(items: map<Addr, Item>, m: map<Key, Value>, n: Node, i: nat, x: Addr, it: Item)
    requires n.Leaf? && i < |n.blocks| && n.Covers(it.key) && x !in items && Exact(items, m, n)
    requires if it.key in m then Holds(items, n, i, it.key) else n.blocks[i].free
    ensures Exact(items[x := it], m[it.key := it.value], WithBlock(n, i, it.key, x))
  {
    NewItemKeepsExact(items, m, n, x, it);
    if it.key in m {
      assert Holds(items[x := it], n, i, it.key);
      UpdateExact(items[x := it], m, n, i, x);
    } else {
      InsertExact(items[x := it], m, n, i, x);
    }
  }

  /** Only one shared leaf covers a key. */
  lemma OneSharedLeaf(cfg: Config, s: State, a: Addr, b: Addr, key: Key)
    requires Forest(cfg, Tree(s), Pends(s)) && Shared(s, a) && b in Tree(s).nodes
    requires s.mem.nodes[a].Leaf? && s.mem.nodes[b].Leaf? && s.mem.nodes[a].Covers(key) && s.mem.nodes[b].Covers(key)
    ensures a == b
  {
    OneLeaf(Tree(s), a, b, key);
  }

  /** The parts of a leaf that a splitter works on cover no key of a leaf that is not frozen. */
  lemma PartsElsewhere(cfg: Config, s: State, a: Addr, key: Key, u: Thread)
    requires Forest(cfg, Tree(s), Pends(s)) && LocksOk(s) && HeldShared(s) && PcsOk(cfg, s)
    requires Shared(s, a) && !Frozen(s, a) && s.mem.nodes[a].Leaf? && s.mem.nodes[a].Covers(key)
    requires u in s.pcs && s.pcs[u].Half? && |s.pcs[u].held| == 1
    ensures s.pcs[u].spare in s.mem.nodes && !s.mem.nodes[s.pcs[u].spare].Covers(key) && !s.pcs[u].image.Covers(key)
  {
    var pc := s.pcs[u];
    assert PcOk(cfg, s, pc);
    LastHeld(s, u);
    var b := pc.held[0];
    assert pc.held == [b] && HalfOk(cfg, s, pc);
    assert a != b;
    hide Forest;
    if s.mem.nodes[b].Covers(key) {
      OneSharedLeaf(cfg, s, a, b, key);
      assert false;
    }
  }

  /** So no other leaf covers the key, new ones included. */
  lemma OthersElsewhere(cfg: Config, s: State, a: Addr, key: Key, b: Addr)
    requires Forest(cfg, Tree(s), Pends(s)) && LocksOk(s) && HeldShared(s) && PcsOk(cfg, s)
    requires Shared(s, a) && !Frozen(s, a) && s.mem.nodes[a].Leaf? && s.mem.nodes[a].Covers(key)
    requires b in s.mem.nodes && b != a && s.mem.nodes[b].Leaf?
    ensures !s.mem.nodes[b].Covers(key)
  {
    if b in Privates(s) {
      var u :| u in s.pcs && s.pcs[u].HasSpare() && s.pcs[u].spare == b;
      assert PcOk(cfg, s, s.pcs[u]);
      SpareLeaf(cfg, s, s.pcs[u]);
      hide Forest, LocksOk, HeldShared, PcsOk, Shared, Frozen, PcOk;
      PartsElsewhere(cfg, s, a, key, u);
    } else if s.mem.nodes[b].Covers(key) {
      assert b in Tree(s).nodes;
      hide Forest, LocksOk, HeldShared, PcsOk, Frozen;
      OneSharedLeaf(cfg, s, a, b, key);
    }
  }

  lemma SpareLeaf(cfg: Config, s: State, pc: Pc)
    requires PcOk(cfg, s, pc) && pc.HasSpare() && pc.spare in s.mem.nodes && s.mem.nodes[pc.spare].Leaf?
    ensures pc.Half? && |pc.held| == 1
  {
  }

  lemma UpsertTree(cfg: Config, s: State, step: Step, s': State)
    requires Forest(cfg, Tree(s), Pends(s)) && ClientMove(cfg, s, step, s')
    ensures Forest(cfg, Tree(s'), Pends(s')) && Pends(s') == Pends(s) && Tree(s').nodes.Keys == Tree(s).nodes.Keys
  {
    var a := step.node;
    var w := s'.mem.nodes[a];
    UpsertTreeIs(cfg, s, step, s');
    assert Shape(cfg, Tree(s).nodes[a]);
    hide Forest, Tree, Pends;
    LeafRewritten(cfg, Tree(s), Pends(s), a, w);
    ItemsForest(cfg, Put(Tree(s), a, w), Pends(s), s'.mem.items);
  }

  lemma UpsertTreeIs(cfg: Config, s: State, step: Step, s': State)
    requires ClientMove(cfg, s, step, s')
    ensures Pends(s') == Pends(s) && step.node in s.mem.nodes && step.node in s'.mem.nodes
    ensures var w := s'.mem.nodes[step.node]; var n := s.mem.nodes[step.node];
      && Tree(s') == Put(Tree(s), step.node, w).(items := s'.mem.items)
      && step.node in Tree(s).nodes && Tree(s).nodes[step.node] == n
      && w.Leaf? && n.Leaf? && w.lo == n.lo && w.hi == n.hi && |w.blocks| == |n.blocks|
  {
    assert Privates(s') == Privates(s);
    assert Tree(s').nodes == Tree(s).nodes[step.node := s'.mem.nodes[step.node]];
  }

  lemma UpsertExact(cfg: Config, s: State, step: Step, s': State, b: Addr)
    requires Forest(cfg, Tree(s), Pends(s)) && LocksOk(s) && HeldShared(s) && PcsOk(cfg, s) && b in s.mem.nodes
    requires Exact(s.mem.items, s.model, s.mem.nodes[b]) && ClientMove(cfg, s, step, s')
    ensures b in s'.mem.nodes && Exact(s'.mem.items, s'.model, s'.mem.nodes[b])
  {
    var a, h := step.node, s.mem;
    hide Exact, PcsOk, LocksOk, HeldShared, Forest, Frozen;
    if b == a {
      UpsertedLeaf(h.items, s.model, h.nodes[a], step.i, step.item, step.it);
    } else {
      if h.nodes[b].Leaf? {
        OthersElsewhere(cfg, s, a, step.it.key, b);
      }
      InnerOrElsewhere(h.items, s.model, h.nodes[b], step.item, step.it);
    }
  }

  lemma InnerOrElsewhere(items: map<Addr, Item>, m: map<Key, Value>, n: Node, x: Addr, it: Item)
    requires x !in items && Exact(items, m, n) && (n.Leaf? ==> !n.Covers(it.key))
    ensures Exact(items[x := it], m[it.key := it.value], n)
  {
    if n.Leaf? {
      ExactAfterUpsert(items, m, n, x, it);
    }
  }

  /** What an upsert leaves: everything but the blocks of its leaf. */
  ghost predicate LeafChange(h: Memory, g: Memory, a: Addr) {
    && g.root == h.root && g.nodes.Keys == h.nodes.Keys && a in h.nodes && h.nodes[a].Leaf? && g.nodes[a].Leaf?
    && g.nodes[a].(blocks := h.nodes[a].blocks) == h.nodes[a] && |g.nodes[a].blocks| == |h.nodes[a].blocks|
    && forall b :: b in h.nodes && b != a ==> g.nodes[b] == h.nodes[b]
  }

  lemma UpsertFacts(cfg: Config, s: State, step: Step, s': State)
    requires ClientMove(cfg, s, step, s')
    ensures step.Upsert? && s'.pcs == s.pcs && LeafChange(s.mem, s'.mem, step.node) && ItemsKept(s.mem, s'.mem)
    ensures Shared(s, step.node) && !Frozen(s, step.node) && s.mem.nodes[step.node].Covers(step.it.key)
    ensures step.item !in s.mem.items && s'.mem.items == s.mem.items[step.item := step.it]
    ensures s'.model == s.model[step.it.key := step.it.value]
  {
  }

  lemma UpsertSafe(cfg: Config, s: State, step: Step, s': State)
    requires Forest(cfg, Tree(s), Pends(s)) && LocksOk(s) && HeldShared(s) && PcsOk(cfg, s)
    requires ReaderSafe(cfg, s.mem, s.model) && ClientMove(cfg, s, step, s')
    ensures ReaderSafe(cfg, s'.mem, s'.model) && Evolves(s.mem, s'.mem) && ItemsKept(s.mem, s'.mem)
  {
    hide Exact, PcsOk, LocksOk, HeldShared, Forest, ClientMove, Shared, Frozen;
    UpsertFacts(cfg, s, step, s');
    forall b | b in s'.mem.nodes
      ensures Exact(s'.mem.items, s'.model, s'.mem.nodes[b])
    {
      UpsertExact(cfg, s, step, s', b);
    }
    SameLinks(cfg, s.mem, s'.mem, step.node);
  }

  lemma SameLinks(cfg: Config, h: Memory, g: Memory, a: Addr)
    requires LeafChange(h, g, a) && Shapes(cfg, h) && WeakLinks(cfg, h)
    ensures Shapes(cfg, g) && WeakLinks(cfg, g) && Evolves(h, g)
  {
    assert Shape(cfg, h.nodes[a]) && Shape(cfg, g.nodes[a]);
    forall b, i | b in g.nodes && g.nodes[b].Inner? && 0 <= i <= g.nodes[b].last
      ensures Shape(cfg, g.nodes[b]) && WeakLinkOk(g, g.nodes[b], i)
    {
      assert WeakLinkOk(h, h.nodes[b], i);
    }
  }

  /** Nodes that splitters are inside of, and their new nodes, are not the leaf of an upsert. */
  lemma UpsertElsewhere(cfg: Config, s: State, a: Addr, u: Thread)
    requires LocksOk(s) && HeldShared(s) && PcsOk(cfg, s) && u in s.pcs
    requires Shared(s, a) && !Frozen(s, a) && s.mem.nodes[a].Leaf?
    ensures (s.pcs[u].In? || s.pcs[u].Half?) ==> s.pcs[u].held != [] && s.pcs[u].held[|s.pcs[u].held| - 1] != a
    ensures s.pcs[u].HasSpare() ==> s.pcs[u].spare != a
  {
    var pc := s.pcs[u];
    assert PcOk(cfg, s, pc);
    if pc.In? || pc.Half? {
      LastHeld(s, u);
      assert |pc.held| == 1 ==> pc.held == [pc.held[0]];
    }
    if pc.HasSpare() {
      SpareIsPrivate(s, u);
    }
  }

  lemma UpsertPc(cfg: Config, s: State, step: Step, s': State, u: Thread)
    requires Forest(cfg, Tree(s), Pends(s)) && LocksOk(s) && HeldShared(s) && PcsOk(cfg, s) && u in s.pcs
    requires ClientMove(cfg, s, step, s') && Pends(s') == Pends(s) && Tree(s').nodes.Keys == Tree(s).nodes.Keys
    ensures u in s'.pcs && PcOk(cfg, s', s'.pcs[u])
  {
    var a, pc := step.node, s.pcs[u];
    UpsertFacts(cfg, s, step, s');
    assert PcOk(cfg, s, pc);
    assert s.mem.nodes[a].Leaf?;
    hide Forest, LocksOk, HeldShared, PcsOk, Exact, ClientMove, Frozen;
    hide Tree, Pends, Reachable;
    UpsertElsewhere(cfg, s, a, u);
    if pc.Half? && |pc.held| == 1 {
      PartsElsewhere(cfg, s, a, step.it.key, u);
      assert HalfOk(cfg, s, pc);
      ExactAfterUpsert(s.mem.items, s.model, pc.image, step.item, step.it);
    }
    LeafChangePc(cfg, s, s', a, pc);
  }

  lemma LeafChangePc(cfg: Config, s: State, s': State, a: Addr, pc: Pc)
    requires PcOk(cfg, s, pc) && LeafChange(s.mem, s'.mem, a) && (pc.Try? && Shared(s, pc.node) ==> Shared(s', pc.node))
    requires (pc.In? || pc.Half?) ==> pc.held != [] && pc.held[|pc.held| - 1] != a
    requires pc.HasSpare() ==> pc.spare != a
    requires pc.Half? && |pc.held| == 1 ==> Exact(s'.mem.items, s'.model, pc.image)
    ensures PcOk(cfg, s', pc)
  {
    hide Shared, Exact, PcOk;
    assert forall b :: b in pc.Locked() ==> EndsAsBefore(s, s', b);
    PcUndisturbed(cfg, s, s', pc);
  }

  // ---- All steps ---------------------------------------------------------------------------------------

  /** The lock protocol goes on. */
  lemma LocksFollow(cfg: Config, s: State, step: Step, s': State)
    requires SplitLocks.Inv(LockState(s)) && PcsOk(cfg, s) && Next(cfg, s, step, s')
    ensures SplitLocks.Inv(LockState(s')) && LocksOk(s) && LocksOk(s')
  {
    hide SplitLocks.Inv, SplitLocks.Next, LockState, PcsOk, Next;
    StepsAreLockSteps(cfg, s, step, s');
    if !Silent(step) {
      SplitLocks.NextKeepsInv(LockState(s), ToLockStep(step), LockState(s'));
    }
    LockFacts(s);
    LockFacts(s');
  }

  lemma AddMoveOk(cfg: Config, s: State, step: Step, s': State)
    requires Forest(cfg, Tree(s), Pends(s)) && ReaderSafe(cfg, s.mem, s.model) && SpareOnce(s) && HeldShared(s)
    requires LocksOk(s) && AddMove(cfg, s, step, s') && PcsOk(cfg, s)
    ensures Follows(cfg, s, s') && Frame(s, s', step.t) && SpareOnce(s') && HeldShared(s')
    ensures PcOk(cfg, s', s'.pcs[step.t])
  {
    hide Forest, ReaderSafe, SpareOnce, HeldShared, LocksOk, PcOk, Follows, Frame, Tree, Pends;
    assert PcOk(cfg, s, s.pcs[step.t]);
    if step.CutLeaf? {
      CutLeafOk(cfg, s, step, s');
    } else if step.CutInner? {
      CutInnerOk(cfg, s, step, s');
    } else {
      NewRootOk(cfg, s, step, s');
    }
  }

  lemma TreeMoveOk(cfg: Config, s: State, step: Step, s': State)
    requires Forest(cfg, Tree(s), Pends(s)) && ReaderSafe(cfg, s.mem, s.model) && SpareOnce(s) && HeldShared(s)
    requires LocksOk(s) && TreeMove(cfg, s, step, s') && PcsOk(cfg, s)
    ensures Follows(cfg, s, s') && Frame(s, s', step.t) && SpareOnce(s') && HeldShared(s')
    ensures PcOk(cfg, s', s'.pcs[step.t])
  {
    var t := step.t;
    assert PcOk(cfg, s, s.pcs[t]);
    hide Forest, ReaderSafe, SpareOnce, HeldShared, LocksOk, Follows, Frame, Tree, Pends, HalfOk;
    if step.Enter? {
      EnterOk(cfg, s, step, s');
    } else if step.CasRoot? {
      CasRootOk(cfg, s, step, s');
    } else {
      hide PcOk;
      WriteBackOwn(cfg, s, step, s');
      if |s.pcs[t].Locked()| == 1 {
        LeafBackOk(cfg, s, step, s');
      } else {
        InnerBackOk(cfg, s, step, s');
      }
    }
  }

  lemma SplitterMoveOk(cfg: Config, s: State, step: Step, s': State)
    requires Forest(cfg, Tree(s), Pends(s)) && ReaderSafe(cfg, s.mem, s.model) && SpareOnce(s) && HeldShared(s)
    requires LocksOk(s) && PcsOk(cfg, s) && Next(cfg, s, step, s') && !ClientMove(cfg, s, step, s')
    ensures Follows(cfg, s, s') && Frame(s, s', step.t) && SpareOnce(s') && HeldShared(s')
    ensures PcOk(cfg, s', s'.pcs[step.t])
  {
    hide LockMove, QuietMove, AddMove, TreeMove, ClientMove;
    hide Forest, ReaderSafe, SpareOnce, HeldShared, LocksOk, PcOk, Frame, Tree, Pends;
    if LockMove(cfg, s, step, s') {
      MoverIsThere(cfg, s, step, s');
      LockMoveOk(cfg, s, step, s');
    } else if QuietMove(cfg, s, step, s') {
      QuietMoveOk(cfg, s, step, s');
      SameModel(s, s', step.t);
    } else if AddMove(cfg, s, step, s') {
      AddMoveOk(cfg, s, step, s');
    } else {
      TreeMoveOk(cfg, s, step, s');
    }
  }

  lemma MoverIsThere(cfg: Config, s: State, step: Step, s': State)
    requires Next(cfg, s, step, s') && PcsOk(cfg, s)
    ensures step.t in s.pcs && PcOk(cfg, s, s.pcs[step.t])
  {
  }

  lemma SameModel(s: State, s': State, t: Thread)
    requires Frame(s, s', t) && s'.mem == s.mem
    ensures s'.model == s.model && Evolves(s.mem, s'.mem) && ItemsKept(s.mem, s'.mem)
  {
  }

  lemma NextKeepsInv(cfg: Config, s: State, step: Step, s': State)
    requires Inv(cfg, s) && Next(cfg, s, step, s')
    ensures Inv(cfg, s') && Evolves(s.mem, s'.mem) && ItemsKept(s.mem, s'.mem)
  {
    hide SplitLocks.Inv, LockState, Forest, ReaderSafe, SpareOnce, HeldShared, LocksOk, PcOk, Frame, Tree, Pends;
    hide Next, ClientMove;
    LocksFollow(cfg, s, step, s');
    if ClientMove(cfg, s, step, s') {
      UpsertKeepsInv(cfg, s, step, s');
    } else {
      SplitterMoveOk(cfg, s, step, s');
      FramePcs(cfg, s, s', step.t);
    }
  }

  lemma FramePcs(cfg: Config, s: State, s': State, t: Thread)
    requires LocksOk(s) && LocksOk(s') && HeldShared(s) && HeldShared(s') && Frame(s, s', t) && PcsOk(cfg, s)
    requires PcOk(cfg, s', s'.pcs[t])
    ensures PcsOk(cfg, s')
  {
    hide LocksOk, HeldShared, PcOk, Kept, Shared;
    forall u | u in s'.pcs
      ensures PcOk(cfg, s', s'.pcs[u])
    {
      if u != t {
        OtherPcOk(cfg, s, s', t, u);
      }
    }
  }

  lemma UpsertKeepsInv(cfg: Config, s: State, step: Step, s': State)
    requires Forest(cfg, Tree(s), Pends(s)) && ReaderSafe(cfg, s.mem, s.model) && SpareOnce(s) && HeldShared(s)
    requires LocksOk(s) && PcsOk(cfg, s) && ClientMove(cfg, s, step, s')
    ensures Follows(cfg, s, s') && SpareOnce(s') && HeldShared(s') && PcsOk(cfg, s')
  {
    hide Forest, ReaderSafe, LocksOk, PcOk, ClientMove;
    UpsertTree(cfg, s, step, s');
    UpsertSafe(cfg, s, step, s');
    UpsertFacts(cfg, s, step, s');
    forall u | u in s'.pcs
      ensures PcOk(cfg, s', s'.pcs[u])
    {
      UpsertPc(cfg, s, step, s', u);
    }
    hide Frozen;
    assert HeldShared(s') by {
      forall t, a | Holder(s', t, a)
        ensures Shared(s', a)
      {
        assert Holder(s, t, a);
      }
    }
  }

  // ---- Whole runs --------------------------------------------------------------------------------------

  ghost predicate Run(cfg: Config, run: seq<State>, steps: seq<Step>) {
    && |run| == |steps| + 1 && Init(cfg, run[0])
    && forall i :: 0 <= i < |steps| ==> Next(cfg, run[i], steps[i], run[i + 1])
  }

  /** In every run, whatever splits, inserts and updates are under way: the lock words are right, the tree
      has exact links but for the separators that some splitter is about to enter, and readers are safe. */
  lemma {:induction false} RunInv(cfg: Config, run: seq<State>, steps: seq<Step>, i: nat)
    requires Run(cfg, run, steps) && i < |run|
    ensures Inv(cfg, run[i])
  {
    hide Inv, Next, Init;
    if i == 0 {
      InitInv(cfg, run[0]);
    } else {
      RunInv(cfg, run, steps, i - 1);
      NextKeepsInv(cfg, run[i - 1], steps[i - 1], run[i]);
    }
  }

  /** The states of a run, as readers meet them. */
  ghost function TraceOf(run: seq<State>): seq<Snapshot> {
    seq(|run|, i requires 0 <= i < |run| => Snapshot(run[i].mem, run[i].model))
  }

  /** Every run is a trace of states that are safe for readers. */
  lemma {:induction false} RunIsTrace(cfg: Config, run: seq<State>, steps: seq<Step>, n: nat)
    requires Run(cfg, run, steps) && 0 < n <= |run|
    ensures TraceOk(cfg, TraceOf(run[..n]))
  {
    hide Next, Init, Inv, TraceOk, ReaderSafe, Evolves, ItemsKept;
    var s := run[n - 1];
    RunInv(cfg, run, steps, n - 1);
    InvIsSafe(cfg, s);
    if n == 1 {
      OneState(cfg, TraceOf(run[..n]));
    } else {
      RunIsTrace(cfg, run, steps, n - 1);
      RunInv(cfg, run, steps, n - 2);
      NextKeepsInv(cfg, run[n - 2], steps[n - 2], s);
      TraceGrows(run, n);
      var t := TraceOf(run[..n - 1]);
      assert t[|t| - 1] == Snapshot(run[n - 2].mem, run[n - 2].model);
      hide TraceOf, Run;
      TraceAppend(cfg, t, Snapshot(s.mem, s.model));
    }
  }

  lemma TraceGrows(run: seq<State>, n: nat)
    requires 0 < n <= |run|
    ensures TraceOf(run[..n]) == TraceOf(run[..n - 1]) + [Snapshot(run[n - 1].mem, run[n - 1].model)]
  {
  }

  lemma InvIsSafe(cfg: Config, s: State)
    requires Inv(cfg, s)
    ensures ReaderSafe(cfg, s.mem, s.model)
  {
  }

  lemma OneState(cfg: Config, t: seq<Snapshot>)
    requires |t| == 1 && ReaderSafe(cfg, t[0].mem, t[0].model)
    ensures TraceOk(cfg, t)
  {
    assert t[..0] == [];
  }

  /** So a reader beside any number of splitters and writers finds the entry that the map has when it reads
      the leaf, or sees that the fence does not cover the key. */
  lemma ReadersBesideSplitters(cfg: Config, run: seq<State>, steps: seq<Step>, key: Key, start: nat,
                               vs: seq<FaunusReaders.Visit>)
    requires Run(cfg, run, steps) && FaunusReaders.Search(cfg, TraceOf(run), key, start, vs)
    ensures var v := vs[|vs| - 1];
      && v.time < |run| && v.addr in run[v.time].mem.nodes
      && var s := run[v.time]; var n := s.mem.nodes[v.addr];
      && (n.Leaf? && n.Covers(key) ==>
            && (Present(s.mem.items, n, key) <==> key in s.model)
            && (forall i: nat :: Holds(s.mem.items, n, i, key) ==> s.mem.items[n.blocks[i].addr].value == s.model[key]))
  {
    hide Run, TraceOk;
    assert run[..|run|] == run;
    RunIsTrace(cfg, run, steps, |run|);
    FaunusReaders.ReaderAnswersCorrectly(cfg, TraceOf(run), key, start, vs);
  }

  /** The separator of a split is never found to be there already. */
  lemma SeparatorIsNew(cfg: Config, run: seq<State>, steps: seq<Step>, i: nat)
    requires Run(cfg, run, steps) && i < |steps|
    ensures !steps[i].Duplicate?
  {
    RunInv(cfg, run, steps, i);
    assert Next(cfg, run[i], steps[i], run[i + 1]);
    if steps[i].Duplicate? {
      hide Forest, ReaderSafe, PcsOk, HeldShared, SpareOnce, SplitLocks.Inv, LockState, Run;
      LockFacts(run[i]);
      hide LocksOk;
      NoDuplicate(cfg, run[i], steps[i].t);
      assert false;
    }
  }

  /** The CAS on the root pointer always succeeds. */
  lemma RootCasSucceeds(cfg: Config, run: seq<State>, steps: seq<Step>, i: nat)
    requires Run(cfg, run, steps) && i < |steps| && steps[i].CasRoot?
    ensures var t := steps[i].t;
      && t in run[i].pcs && run[i].pcs[t].Swap? && run[i].mem.root == run[i].pcs[t].seen
      && run[i + 1].mem.root == run[i].pcs[t].spare
  {
    RunInv(cfg, run, steps, i);
    assert Next(cfg, run[i], steps[i], run[i + 1]);
    assert PcOk(cfg, run[i], run[i].pcs[steps[i].t]);
  }

  /** Whenever all splitters have finished, the tree is settled and unlocked. */
  lemma SettledAgain(cfg: Config, run: seq<State>, steps: seq<Step>, i: nat)
    requires Run(cfg, run, steps) && i < |run| && forall t :: t in run[i].pcs ==> run[i].pcs[t] == Off
    ensures Init(cfg, run[i])
  {
    RunInv(cfg, run, steps, i);
    var s := run[i];
    assert Pends(s) == map[] && Privates(s) == {};
    assert Tree(s) == s.mem;
    SettledForest(cfg, s.mem);
    hide Forest, Structure, Run;
    forall a | a in s.mem.nodes
      ensures s.mem.nodes[a].lock == 0
    {
      assert LockState(s).words[a] == s.mem.nodes[a].lock && !SplitLocks.SomeHolder(LockState(s), a);
    }
  }

  /** Without its silent steps every run is a run of the lock protocol. */
  lemma {:induction false} RunIsLockRun(cfg: Config, run: seq<State>, steps: seq<Step>, i: nat)
    returns (ks: seq<SplitLocks.State>, ls: seq<SplitLocks.Step>)
    requires Run(cfg, run, steps) && i < |run|
    ensures SplitLocks.Run(ks, ls) && ks[|ks| - 1] == LockState(run[i])
  {
    hide SplitLocks.Next, SplitLocks.Init, SplitLocks.Inv, LockState, Next, Init, PcsOk;
    hide Forest, ReaderSafe, HeldShared, SpareOnce;
    if i == 0 {
      InitLocks(cfg, run[0]);
      ks, ls := [LockState(run[0])], [];
    } else {
      ks, ls := RunIsLockRun(cfg, run, steps, i - 1);
      RunInv(cfg, run, steps, i - 1);
      StepsAreLockSteps(cfg, run[i - 1], steps[i - 1], run[i]);
      if !Silent(steps[i - 1]) {
        ks, ls := ks + [LockState(run[i])], ls + [ToLockStep(steps[i - 1])];
      }
    }
  }

  lemma InitLocks(cfg: Config, s: State)
    requires Init(cfg, s)
    ensures SplitLocks.Init(LockState(s))
  {
  }

  /** No deadlock: while a splitter is unfinished, some unfinished splitter meets no held lock on any level
      it may go to. */
  lemma SomeSplitterGoesOn(cfg: Config, run: seq<State>, steps: seq<Step>, i: nat, t0: Thread) returns (t: Thread)
    requires Run(cfg, run, steps) && i < |run| && t0 in run[i].pcs && run[i].pcs[t0] != Off
    ensures t in run[i].pcs && run[i].pcs[t] != Off
    ensures forall a :: a in run[i].mem.nodes && run[i].mem.nodes[a].Level() >= |run[i].pcs[t].Locked()| ==>
      run[i].mem.nodes[a].lock == 0
  {
    hide SplitLocks.Run;
    var ks, ls := RunIsLockRun(cfg, run, steps, i);
    hide Run;
    var s := run[i];
    assert LockState(s).pcs[t0] != SplitLocks.Off;
    assert |ks| > 0 by { LockRunLength(ks, ls); }
    t := SplitLocks.SomeSplitterIsFree(ks, ls, |ks| - 1, t0);
    assert LockState(s).pcs[t].Locked() == s.pcs[t].Locked();
    forall a | a in s.mem.nodes && s.mem.nodes[a].Level() >= |s.pcs[t].Locked()|
      ensures s.mem.nodes[a].lock == 0
    {
      assert !SplitLocks.MayWaitFor(LockState(s), t, a);
    }
  }

  lemma LockRunLength(ks: seq<SplitLocks.State>, ls: seq<SplitLocks.Step>)
    requires SplitLocks.Run(ks, ls)
    ensures |ks| > 0
  {
  }

  // ---- What searches meet -----------------------------------------------------------------------------

  lemma {:induction false} SharedStays(cfg: Config, run: seq<State>, steps: seq<Step>, i: nat, j: nat, a: Addr)
    requires Run(cfg, run, steps) && i <= j < |run| && Shared(run[i], a)
    ensures Shared(run[j], a)
    decreases j
  {
    hide Shared, Next, Init, Inv;
    if i < j {
      SharedStays(cfg, run, steps, i, j - 1, a);
      RunInv(cfg, run, steps, j - 1);
      SharedStep(cfg, run[j - 1], steps[j - 1], run[j], a);
    }
  }

  lemma SharedStep(cfg: Config, s: State, step: Step, s': State, a: Addr)
    requires Inv(cfg, s) && Next(cfg, s, step, s') && Shared(s, a)
    ensures Shared(s', a)
  {
    hide SplitLocks.Inv, LockState, Forest, ReaderSafe, SpareOnce, HeldShared, LocksOk, PcOk, Tree, Pends;
    hide Next, ClientMove, Reachable;
    LocksFollow(cfg, s, step, s');
    if ClientMove(cfg, s, step, s') {
      UpsertTree(cfg, s, step, s');
    } else {
      SplitterMoveOk(cfg, s, step, s');
    }
  }

  lemma RootIsShared(cfg: Config, run: seq<State>, steps: seq<Step>, i: nat)
    requires Run(cfg, run, steps) && i < |run|
    ensures Shared(run[i], run[i].mem.root)
  {
    RunInv(cfg, run, steps, i);
  }

  /** A search that begins at a shared node, as the root is, meets only shared nodes, at whatever moments
      it reads them: never the new right node of a split that its parent does not know. */
  lemma {:induction false} SearchStaysShared(cfg: Config, run: seq<State>, steps: seq<Step>, key: Key, start: nat,
                                             vs: seq<FaunusReaders.Visit>)
    requires Run(cfg, run, steps) && FaunusReaders.Search(cfg, TraceOf(run), key, start, vs)
    requires start < |run| && Shared(run[start], vs[0].addr)
    ensures var v := vs[|vs| - 1]; v.time < |run| && Shared(run[v.time], v.addr)
  {
    hide Run, Shared, Inv;
    var v := vs[|vs| - 1];
    if |vs| == 1 {
      SharedStays(cfg, run, steps, start, v.time, v.addr);
    } else {
      var us := vs[..|vs| - 1];
      SearchStaysShared(cfg, run, steps, key, start, us);
      var u := us[|us| - 1];
      RunInv(cfg, run, steps, u.time);
      SharedChild(cfg, run[u.time], u.addr, key);
      SharedStays(cfg, run, steps, u.time, v.time, v.addr);
    }
  }

  lemma SharedChild(cfg: Config, s: State, a: Addr, key: Key)
    requires Inv(cfg, s) && Shared(s, a) && InnerShape(cfg, s.mem.nodes[a])
    ensures Shared(s, Child(s.mem.nodes[a], key))
  {
    var n := Tree(s).nodes[a];
    assert Children(Tree(s), Pends(s), n);
    assert ChildOk(Tree(s), Pends(s), n, Route(n, key));
  }
}
