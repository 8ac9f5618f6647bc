/** One leaf under any number of concurrent inserts, updates and splits: a step system whose
    steps are the single remote memory operations of the threads.  A splitter freezes the leaf by
    a fetch-and-add on every block; inserts and updates end in a compare-and-swap on one block. */
module LeafFreeze {
  import opened Bits
  import opened FaunusNodes

  type Thread = nat

  datatype Pc =
    | Idle
    | Holding(key: Key, addr: Addr)                                // the item is written
    | Armed(key: Key, addr: Addr, slot: nat, expected: Block)      // the leaf is read, the CAS is next
    | Freezing(n: nat)                                             // node locked, n blocks locked
    | Frozen(image: seq<Block>)                                    // leaf read back
    | Sharing(image: seq<Block>, mid: Key)                         // sibling written
    | Linking                                                      // leaf written, separator moves up
    | Thawing(n: nat)                                              // too few entries: n blocks unlocked
  {
    predicate Writer() { Holding? || Armed? }
    predicate Splitter() { Freezing? || Frozen? || Sharing? || Linking? || Thawing? }
  }

  /** A leaf to the right, as a split wrote it. */
  datatype Right = Right(lo: Key, hi: Key, blocks: seq<Block>)

  /** `keyOf` are the items written so far, `acked` those whose CAS was acknowledged, `latest` the one
      acknowledged last for each key, and `rights` the leaves that splits have written to the right. */
  datatype State = State(lock: bool, lo: Key, hi: Key, blocks: seq<Block>, keyOf: map<Addr, Key>, acked: set<Addr>,
                         latest: map<Key, Addr>, rights: seq<Right>, pcs: map<Thread, Pc>)

  datatype Step =
    | WriteItem(t: Thread, key: Key, addr: Addr)
    | ReadLeaf(t: Thread, slot: nat)
    | Cas(t: Thread)
    | LockNode(t: Thread)
    | FaaLock(t: Thread)
    | ReadImage(t: Thread)
    | WriteSibling(t: Thread, mid: Key, blocks: seq<Block>)
    | WriteLeaf(t: Thread, blocks: seq<Block>)
    | StartThaw(t: Thread)
    | FaaUnlock(t: Thread)
    | Release(t: Thread)

  /** Some used block points to an item with the key. */
  predicate HasKey(keyOf: map<Addr, Key>, blocks: seq<Block>, k: Key) {
    exists i :: 0 <= i < |blocks| && !blocks[i].free && blocks[i].addr in keyOf && keyOf[blocks[i].addr] == k
  }

  function KeysOf(keyOf: map<Addr, Key>, blocks: seq<Block>): set<Key> {
    set i | 0 <= i < |blocks| && !blocks[i].free && blocks[i].addr in keyOf :: keyOf[blocks[i].addr]
  }

  predicate AllUnlocked(blocks: seq<Block>) {
    forall i :: 0 <= i < |blocks| ==> !blocks[i].locked
  }

  /** The side of the separator that a key belongs to. */
  predicate OnSide(k: Key, mid: Key, right: bool) {
    if right then mid <= k else k < mid
  }

  /** A used block of the half is an unlocked copy of a block of the image, with a key of its side. */
  predicate IsCopy(keyOf: map<Addr, Key>, image: seq<Block>, mid: Key, right: bool, b: Block) {
    && b.addr in keyOf && OnSide(keyOf[b.addr], mid, right)
    && exists i :: 0 <= i < |image| && b == image[i].(locked := false)
  }

  /** One half of what a splitter makes of its image: every key of that side once, in unlocked copies
      of its blocks, and free blocks. */
  predicate HalfOf(keyOf: map<Addr, Key>, image: seq<Block>, mid: Key, right: bool, blocks: seq<Block>) {
    && |blocks| == |image| && AllUnlocked(blocks)
    && (forall j :: 0 <= j < |blocks| && !blocks[j].free ==> IsCopy(keyOf, image, mid, right, blocks[j]))
    && (forall i, j :: 0 <= i < j < |blocks| && !blocks[i].free && !blocks[j].free ==>
          keyOf[blocks[i].addr] != keyOf[blocks[j].addr])
    && (forall k :: k in KeysOf(keyOf, image) && OnSide(k, mid, right) ==> HasKey(keyOf, blocks, k))
  }

  /** What the splitter writes back: the half below `mid`, in which no free block keeps the address
      that the image had in its slot. */
  predicate LeftOf(keyOf: map<Addr, Key>, image: seq<Block>, mid: Key, blocks: seq<Block>) {
    && HalfOf(keyOf, image, mid, false, blocks)
    && (forall j :: 0 <= j < |blocks| && blocks[j].free ==> blocks[j].addr != image[j].addr)
  }

  /** What it writes to the new leaf. */
  predicate RightOf(keyOf: map<Addr, Key>, image: seq<Block>, mid: Key, blocks: seq<Block>) {
    HalfOf(keyOf, image, mid, true, blocks)
  }

  predicate At(s: State, t: Thread, pc: Pc) {
    t in s.pcs && s.pcs[t] == pc
  }

  function Goto(s: State, t: Thread, pc: Pc): State {
    s.(pcs := s.pcs[t := pc])
  }

  ghost predicate Next(s: State, step: Step, s': State) {
    match step
    case WriteItem(t, key, addr) =>
      && At(s, t, Idle) && addr !in s.keyOf
      && s' == Goto(s, t, Holding(key, addr)).(keyOf := s.keyOf[addr := key])
    case ReadLeaf(t, i) =>
      // the leaf is not being split, covers the key, and block i is the block of the key, or a
      // free block when no used block has the key
      && t in s.pcs && s.pcs[t].Holding? && i < |s.blocks|
      && var pc := s.pcs[t];
      && !s.lock && s.lo <= pc.key < s.hi && AllUnlocked(s.blocks)
      && (if s.blocks[i].free then !HasKey(s.keyOf, s.blocks, pc.key)
          else s.blocks[i].addr in s.keyOf && s.keyOf[s.blocks[i].addr] == pc.key)
      && s' == Goto(s, t, Armed(pc.key, pc.addr, i, s.blocks[i]))
    case Cas(t) =>
      && t in s.pcs && s.pcs[t].Armed?
      && var pc := s.pcs[t];
      && pc.slot < |s.blocks|
      && s' == if s.blocks[pc.slot] == pc.expected
               then Goto(s, t, Idle).(blocks := s.blocks[pc.slot := Block(Fp(pc.key), pc.addr, false, false)],
                                      acked := s.acked + {pc.addr}, latest := s.latest[pc.key := pc.addr])
               else Goto(s, t, Holding(pc.key, pc.addr))
    case LockNode(t) =>
      At(s, t, Idle) && !s.lock && s' == Goto(s, t, Freezing(0)).(lock := true)
    case FaaLock(t) =>
      && t in s.pcs && s.pcs[t].Freezing? && s.pcs[t].n < |s.blocks|
      && var n := s.pcs[t].n;
      s' == Goto(s, t, Freezing(n + 1)).(blocks := s.blocks[n := FaaUp(s.blocks[n])])
    case ReadImage(t) =>
      At(s, t, Freezing(|s.blocks|)) && s' == Goto(s, t, Frozen(s.blocks))
    case WriteSibling(t, mid, blocks) =>
      && t in s.pcs && s.pcs[t].Frozen? && s.lo < mid < s.hi
      && |KeysOf(s.keyOf, s.pcs[t].image)| > |s.blocks| / 2
      && RightOf(s.keyOf, s.pcs[t].image, mid, blocks)
      && s' == Goto(s, t, Sharing(s.pcs[t].image, mid)).(rights := s.rights + [Right(mid, s.hi, blocks)])
    case WriteLeaf(t, blocks) =>
      && t in s.pcs && s.pcs[t].Sharing?
      && var pc := s.pcs[t];
      && LeftOf(s.keyOf, pc.image, pc.mid, blocks)
      && s' == Goto(s, t, Linking).(blocks := blocks, hi := pc.mid)
    case StartThaw(t) =>
      && t in s.pcs && s.pcs[t].Frozen? && |KeysOf(s.keyOf, s.pcs[t].image)| <= |s.blocks| / 2
      && s' == Goto(s, t, Thawing(0))
    case FaaUnlock(t) =>
      && t in s.pcs && s.pcs[t].Thawing? && s.pcs[t].n < |s.blocks|
      && var n := s.pcs[t].n;
      s' == Goto(s, t, Thawing(n + 1)).(blocks := s.blocks[n := FaaDown(s.blocks[n])])
    case Release(t) =>
      (At(s, t, Linking) || At(s, t, Thawing(|s.blocks|))) && s' == Goto(s, t, Idle).(lock := false)
  }

  /** An unlocked leaf that holds acknowledged items of its fence, each acknowledged item's key in some
      block; the first leaf, which is empty, and every leaf that a split has written. Threads are idle,
      or come with an item of their own that they have written for another leaf and not put there. */
  ghost predicate Init(s: State) {
    && !s.lock && s.lo < s.hi && AllUnlocked(s.blocks) && s.rights == [] && s.acked <= s.keyOf.Keys
    && (forall i :: 0 <= i < |s.blocks| && !s.blocks[i].free ==> StartsOk(s, s.blocks[i].addr))
    && (forall a :: a in s.acked ==> HasKey(s.keyOf, s.blocks, s.keyOf[a]))
    && (forall t :: t in s.pcs ==> s.pcs[t].Idle? || s.pcs[t].Holding?) && Writers(s)
  }

  ghost predicate StartsOk(s: State, a: Addr) {
    && a in s.acked && a in s.keyOf && s.lo <= s.keyOf[a] < s.hi
    && s.keyOf[a] in s.latest && s.latest[s.keyOf[a]] == a
  }

  // ---- The invariant ------------------------------------------------------------------------

  /** The node lock is set exactly while one thread splits the leaf. */
  ghost predicate OneSplitter(s: State) {
    && (forall t, u :: t in s.pcs && u in s.pcs && s.pcs[t].Splitter() && s.pcs[u].Splitter() ==> t == u)
    && (forall t :: t in s.pcs && s.pcs[t].Splitter() ==> s.lock)
    && (s.lock ==> exists t :: t in s.pcs && s.pcs[t].Splitter())
  }

  /** Which blocks are locked is known from where the splitter is; from its read of the leaf until
      its write, the blocks are those of its image. */
  ghost predicate FreezeOk(s: State, pc: Pc) {
    && (pc.Freezing? ==> pc.n <= |s.blocks| && forall i :: 0 <= i < |s.blocks| ==> (s.blocks[i].locked <==> i < pc.n))
    && (pc.Frozen? || pc.Sharing? ==> s.blocks == pc.image && forall i :: 0 <= i < |s.blocks| ==> s.blocks[i].locked)
    && (pc.Linking? ==> AllUnlocked(s.blocks))
    && (pc.Thawing? ==> pc.n <= |s.blocks| && forall i :: 0 <= i < |s.blocks| ==> (s.blocks[i].locked <==> pc.n <= i))
    && (pc.Sharing? ==> s.lo < pc.mid < s.hi)
  }

  ghost predicate Freezes(s: State) {
    && (!s.lock ==> AllUnlocked(s.blocks))
    && forall t :: t in s.pcs ==> FreezeOk(s, s.pcs[t])
  }

  /** Items of running inserts are private to them; an armed CAS expects an unlocked block. */
  ghost predicate PcOk(s: State, pc: Pc) {
    && (pc.Writer() ==> pc.addr in s.keyOf && s.keyOf[pc.addr] == pc.key && pc.addr !in s.acked)
    && (pc.Armed? ==> !pc.expected.locked && pc.slot < |s.blocks| && s.lo <= pc.key)
    && (pc.Armed? && !pc.expected.free ==>
          pc.expected.addr in s.acked && pc.expected.addr in s.keyOf && s.keyOf[pc.expected.addr] == pc.key)
  }

  ghost predicate Writers(s: State) {
    && (forall t :: t in s.pcs ==> PcOk(s, s.pcs[t]))
    && forall t, u :: t in s.pcs && u in s.pcs && t != u && s.pcs[t].Writer() && s.pcs[u].Writer()
                      ==> s.pcs[t].addr != s.pcs[u].addr
  }

  /** The key is in a leaf that a split has written to the right. */
  ghost predicate InRights(s: State, k: Key) {
    exists r :: 0 <= r < |s.rights| && s.rights[r].lo <= k && HasKey(s.keyOf, s.rights[r].blocks, k)
  }

  /** The key is in the leaf or in a leaf to the right. */
  ghost predicate Kept(s: State, k: Key) {
    HasKey(s.keyOf, s.blocks, k) || InRights(s, k)
  }

  /** A splitter that is about to write the leaf back has written the upper half. */
  ghost predicate SharedOk(s: State, pc: Pc) {
    pc.Sharing? ==>
      && s.rights != [] && s.rights[|s.rights| - 1].lo == pc.mid
      && forall k :: k in KeysOf(s.keyOf, pc.image) && pc.mid <= k ==>
        HasKey(s.keyOf, s.rights[|s.rights| - 1].blocks, k)
  }

  /** The leaf shows acknowledged items only, and every acknowledged key is in the leaf or in a leaf
      to the right. */
  ghost predicate NothingLost(s: State) {
    && s.acked <= s.keyOf.Keys
    && (forall i :: 0 <= i < |s.blocks| && !s.blocks[i].free ==> s.blocks[i].addr in s.acked)
    && (forall a :: a in s.acked ==> Kept(s, s.keyOf[a]))
    && (forall t :: t in s.pcs ==> SharedOk(s, s.pcs[t]))
  }

  ghost predicate Inv(s: State) {
    OneSplitter(s) && Freezes(s) && Writers(s) && NothingLost(s)
  }

  lemma InitInv(s: State)
    requires Init(s)
    ensures Inv(s)
  {
  }

  // ---- Every step keeps it --------------------------------------------------------------------

  lemma OneSplitterKept(s: State, step: Step, s': State)
    requires Inv(s) && Next(s, step, s')
    ensures OneSplitter(s')
  {
    hide NothingLost, Freezes, Writers, LeftOf, HasKey, AllUnlocked;
    OnlyMover(s, step, s');
    if s'.lock {
      if s.lock {
        var u :| u in s.pcs && s.pcs[u].Splitter();
        assert s'.pcs[u].Splitter();
      } else {
        assert s'.pcs[step.t].Splitter();
      }
    }
  }

  /** A step moves only its thread, and only locking and releasing change who splits. */
  lemma OnlyMover(s: State, step: Step, s': State)
    requires Next(s, step, s')
    ensures step.t in s.pcs && s'.pcs == s.pcs[step.t := s'.pcs[step.t]]
    ensures !step.LockNode? && !step.Release? ==>
      (s'.pcs[step.t].Splitter() <==> s.pcs[step.t].Splitter()) && s'.lock == s.lock
    ensures step.LockNode? ==> !s.lock && s'.lock && s'.pcs[step.t].Splitter()
    ensures step.Release? ==> s.pcs[step.t].Splitter() && !s'.pcs[step.t].Splitter() && !s'.lock
  {
    hide LeftOf, HasKey, AllUnlocked;
  }

  /** Items and acknowledgements stay, and so does the lower fence. */
  lemma OnlyGrows(s: State, step: Step, s': State)
    requires Next(s, step, s')
    ensures s.acked <= s'.acked && s'.lo == s.lo && s.rights <= s'.rights
    ensures forall a :: a in s.keyOf ==> a in s'.keyOf && s'.keyOf[a] == s.keyOf[a]
  {
    hide HalfOf, HasKey, AllUnlocked;
  }

  lemma SameSize(s: State, step: Step, s': State)
    requires Inv(s) && Next(s, step, s')
    ensures |s'.blocks| == |s.blocks|
  {
    hide NothingLost, Writers, OneSplitter;
    assert step.t in s.pcs && FreezeOk(s, s.pcs[step.t]);
  }

  /** A CAS changes no locked block and no lock bit. */
  lemma CasMissesLocked(s: State, step: Step, s': State)
    requires Inv(s) && Next(s, step, s') && step.Cas?
    ensures |s'.blocks| == |s.blocks|
    ensures forall i :: 0 <= i < |s.blocks| && s.blocks[i].locked ==> s'.blocks[i] == s.blocks[i]
    ensures forall i :: 0 <= i < |s.blocks| ==> (s'.blocks[i].locked <==> s.blocks[i].locked)
  {
    hide NothingLost, OneSplitter, Freezes;
    assert PcOk(s, s.pcs[step.t]);
  }

  /** The thread that takes the step. */
  lemma OwnFreezeKept(s: State, step: Step, s': State)
    requires Inv(s) && Next(s, step, s')
    ensures step.t in s'.pcs && FreezeOk(s', s'.pcs[step.t])
  {
    hide NothingLost, Writers, HasKey, KeysOf, IsCopy;
    assert FreezeOk(s, s.pcs[step.t]);
    if step.FaaLock? || step.FaaUnlock? {
      hide Inv, Next;
      OwnFaaKept(s, step, s');
    } else {
      OwnOtherKept(s, step, s');
    }
  }

  lemma OwnOtherKept(s: State, step: Step, s': State)
    requires Next(s, step, s') && !step.FaaLock? && !step.FaaUnlock? && step.t in s.pcs && step.t in s'.pcs
      && FreezeOk(s, s.pcs[step.t])
    requires !s.lock ==> AllUnlocked(s.blocks)
    ensures FreezeOk(s', s'.pcs[step.t])
  {
    hide HasKey, KeysOf, IsCopy;
  }

  lemma OwnFaaKept(s: State, step: Step, s': State)
    requires Next(s, step, s') && (step.FaaLock? || step.FaaUnlock?) && step.t in s.pcs && step.t in s'.pcs
      && FreezeOk(s, s.pcs[step.t])
    ensures FreezeOk(s', s'.pcs[step.t])
  {
    hide HasKey, HalfOf;
  }

  /** Another thread. */
  lemma OtherFreezeKept(s: State, step: Step, s': State, u: Thread)
    requires Inv(s) && Next(s, step, s') && u in s.pcs && u != step.t
    ensures u in s'.pcs && s'.pcs[u] == s.pcs[u] && FreezeOk(s', s.pcs[u])
  {
    hide NothingLost, Writers, HasKey, LeftOf;
    assert FreezeOk(s, s.pcs[u]);
    if step.Cas? {
      CasMissesLocked(s, step, s');
      if s.pcs[u].Frozen? || s.pcs[u].Sharing? {
        assert s'.blocks == s.blocks;
      }
    }
  }

  lemma FreezesKept(s: State, step: Step, s': State)
    requires Inv(s) && Next(s, step, s')
    ensures Freezes(s')
  {
    forall u | u in s'.pcs
      ensures FreezeOk(s', s'.pcs[u])
    {
      hide NothingLost, Writers, HasKey, LeftOf, FreezeOk;
      if u != step.t {
        OtherFreezeKept(s, step, s', u);
      } else {
        OwnFreezeKept(s, step, s');
      }
    }
    UnlockedKept(s, step, s');
  }

  lemma UnlockedKept(s: State, step: Step, s': State)
    requires Inv(s) && Next(s, step, s')
    ensures !s'.lock ==> AllUnlocked(s'.blocks)
  {
    hide NothingLost, HasKey, LeftOf, Writers;
    assert FreezeOk(s, s.pcs[step.t]);
    if step.Cas? {
      CasMissesLocked(s, step, s');
    }
  }

  lemma WritersKept(s: State, step: Step, s': State)
    requires Inv(s) && Next(s, step, s')
    ensures Writers(s')
  {
    hide OneSplitter, Freezes, LeftOf, HasKey, AllUnlocked, NothingLost;
    OnlyMover(s, step, s');
    assert PcOk(s, s.pcs[step.t]);
    OwnWriterKept(s, step, s');
    forall u | u in s.pcs && u != step.t
      ensures PcOk(s', s.pcs[u])
      ensures s.pcs[u].Writer() && s'.pcs[step.t].Writer() ==> s'.pcs[step.t].addr != s.pcs[u].addr
    {
      OtherWriterKept(s, step, s', u);
    }
    hide Next, PcOk;
  }

  lemma OwnWriterKept(s: State, step: Step, s': State)
    requires Inv(s) && Next(s, step, s')
    ensures step.t in s'.pcs && PcOk(s', s'.pcs[step.t])
  {
    hide OneSplitter, Freezes, LeftOf, HasKey;
    SameSize(s, step, s');
    assert PcOk(s, s.pcs[step.t]);
  }

  lemma OtherWriterKept(s: State, step: Step, s': State, u: Thread)
    requires Inv(s) && Next(s, step, s') && u in s.pcs && u != step.t
    ensures PcOk(s', s.pcs[u]) && step.t in s'.pcs
    ensures s.pcs[u].Writer() && s'.pcs[step.t].Writer() ==> s'.pcs[step.t].addr != s.pcs[u].addr
  {
    hide OneSplitter, Freezes, LeftOf, HasKey, AllUnlocked;
    SameSize(s, step, s');
    assert PcOk(s, s.pcs[u]) && PcOk(s, s.pcs[step.t]);
    assert s.pcs[u].Writer() && s.pcs[step.t].Writer() ==> s.pcs[u].addr != s.pcs[step.t].addr;
  }

  // ---- No acknowledged key is lost --------------------------------------------------------------

  /** An acknowledged CAS replaces a free block, or a block with the same key. */
  lemma CasKeepsKey(s: State, step: Step, s': State, k: Key)
    requires Inv(s) && Next(s, step, s') && step.Cas? && HasKey(s.keyOf, s.blocks, k)
    ensures HasKey(s'.keyOf, s'.blocks, k)
  {
    hide OneSplitter, Freezes, LeftOf;
    var pc := s.pcs[step.t];
    assert PcOk(s, pc);
    var i :| 0 <= i < |s.blocks| && !s.blocks[i].free && s.blocks[i].addr in s.keyOf && s.keyOf[s.blocks[i].addr] == k;
    assert i == pc.slot && s.blocks[i] == pc.expected ==> k == pc.key;
    assert s'.blocks[i].addr in s'.keyOf && s'.keyOf[s'.blocks[i].addr] == k;
  }

  /** Lock bits do not hide keys. */
  lemma FaaKeepsKey(keyOf: map<Addr, Key>, blocks: seq<Block>, n: nat, b: Block, k: Key)
    requires n < |blocks| && b == blocks[n].(locked := b.locked) && HasKey(keyOf, blocks, k)
    ensures HasKey(keyOf, blocks[n := b], k)
  {
    var i :| 0 <= i < |blocks| && !blocks[i].free && blocks[i].addr in keyOf && keyOf[blocks[i].addr] == k;
    assert blocks[n := b][i].addr == blocks[i].addr;
  }

  lemma NewItemKeepsKey(keyOf: map<Addr, Key>, blocks: seq<Block>, a: Addr, key: Key, k: Key)
    requires a !in keyOf && HasKey(keyOf, blocks, k)
    ensures HasKey(keyOf[a := key], blocks, k)
  {
    var i :| 0 <= i < |blocks| && !blocks[i].free && blocks[i].addr in keyOf && keyOf[blocks[i].addr] == k;
    assert blocks[i].addr in keyOf[a := key];
  }

  lemma LeafKeepsKey(s: State, step: Step, s': State, k: Key)
    requires Inv(s) && Next(s, step, s') && !step.WriteLeaf? && HasKey(s.keyOf, s.blocks, k)
    ensures HasKey(s'.keyOf, s'.blocks, k)
  {
    hide OneSplitter, Writers, NothingLost, HasKey, HalfOf;
    assert FreezeOk(s, s.pcs[step.t]);
    match step
    case WriteItem(t, key, addr) => NewItemKeepsKey(s.keyOf, s.blocks, addr, key, k);
    case Cas(t) => CasKeepsKey(s, step, s', k);
    case FaaLock(t) => FaaKeepsKey(s.keyOf, s.blocks, s.pcs[t].n, FaaUp(s.blocks[s.pcs[t].n]), k);
    case FaaUnlock(t) => FaaKeepsKey(s.keyOf, s.blocks, s.pcs[t].n, FaaDown(s.blocks[s.pcs[t].n]), k);
    case _ =>
  }

  lemma KeyIsInImage(keyOf: map<Addr, Key>, image: seq<Block>, k: Key)
    requires HasKey(keyOf, image, k)
    ensures k in KeysOf(keyOf, image)
  {
  }

  /** The write-back keeps the keys below the separator; the others are in the leaf written before. */
  lemma WriteBackKeepsKey(s: State, step: Step, s': State, k: Key)
    requires Inv(s) && Next(s, step, s') && step.WriteLeaf? && HasKey(s.keyOf, s.blocks, k)
    ensures Kept(s', k)
  {
    hide OneSplitter, Writers, HasKey;
    var pc := s.pcs[step.t];
    assert FreezeOk(s, pc) && SharedOk(s, pc);
    KeyIsInImage(s.keyOf, pc.image, k);
    if pc.mid <= k {
      assert s'.rights[|s.rights| - 1].lo <= k;
    }
  }

  /** Leaves to the right are not touched. */
  lemma RightsKeepKey(s: State, step: Step, s': State, k: Key)
    requires Inv(s) && Next(s, step, s') && InRights(s, k)
    ensures InRights(s', k)
  {
    hide OneSplitter, Writers, Freezes, NothingLost, HasKey, HalfOf;
    var r :| 0 <= r < |s.rights| && s.rights[r].lo <= k && HasKey(s.keyOf, s.rights[r].blocks, k);
    if step.WriteItem? {
      NewItemKeepsKey(s.keyOf, s.rights[r].blocks, step.addr, step.key, k);
    }
    assert s'.rights[r] == s.rights[r];
  }

  lemma KeptKey(s: State, step: Step, s': State, k: Key)
    requires Inv(s) && Next(s, step, s') && Kept(s, k)
    ensures Kept(s', k)
  {
    hide Inv, Next, HasKey, InRights;
    if InRights(s, k) {
      RightsKeepKey(s, step, s', k);
    } else if step.WriteLeaf? {
      WriteBackKeepsKey(s, step, s', k);
    } else {
      LeafKeepsKey(s, step, s', k);
    }
  }

  lemma SharedKept(s: State, step: Step, s': State, t: Thread)
    requires Inv(s) && Next(s, step, s') && t in s'.pcs
    ensures SharedOk(s', s'.pcs[t])
  {
    hide HasKey, Writers, LeftOf;
    OnlyMover(s, step, s');
    assert t in s.pcs && SharedOk(s, s.pcs[t]) && FreezeOk(s, s.pcs[t]);
    var pc := s'.pcs[t];
    if pc.Sharing? {
      assert s.pcs[step.t].Splitter() && s.pcs[t].Splitter() ==> t == step.t;
      if step.WriteItem? {
        SameKeys(s.keyOf, pc.image, step.addr, step.key);
        forall k | k in KeysOf(s'.keyOf, pc.image) && pc.mid <= k
          ensures HasKey(s'.keyOf, s'.rights[|s'.rights| - 1].blocks, k)
        {
          NewItemKeepsKey(s.keyOf, s.rights[|s.rights| - 1].blocks, step.addr, step.key, k);
        }
      }
    }
  }

  /** A new item is not in a leaf image yet. */
  lemma SameKeys(keyOf: map<Addr, Key>, image: seq<Block>, a: Addr, key: Key)
    requires a !in keyOf && forall i :: 0 <= i < |image| && !image[i].free ==> image[i].addr in keyOf
    ensures KeysOf(keyOf[a := key], image) == KeysOf(keyOf, image)
  {
  }

  lemma NothingLostKept(s: State, step: Step, s': State)
    requires Inv(s) && Next(s, step, s')
    ensures NothingLost(s')
  {
    hide HasKey, InRights, SharedOk;
    ShownAreAcked(s, step, s');
    forall a | a in s'.acked
      ensures Kept(s', s'.keyOf[a])
    {
      hide OneSplitter, Freezes, LeftOf, HasKey;
      if a in s.acked {
        KeptKey(s, step, s', s.keyOf[a]);
      } else {
        FreshKey(s, step, s', a);
      }
    }
    forall t | t in s'.pcs
      ensures SharedOk(s', s'.pcs[t])
    {
      SharedKept(s, step, s', t);
    }
  }

  lemma FreshKey(s: State, step: Step, s': State, a: Addr)
    requires Inv(s) && Next(s, step, s') && a in s'.acked && a !in s.acked
    ensures a in s'.keyOf && HasKey(s'.keyOf, s'.blocks, s'.keyOf[a])
  {
    hide OneSplitter, Freezes, LeftOf;
    var pc := s.pcs[step.t];
    assert PcOk(s, pc);
    assert s'.blocks[pc.slot].addr == a;
  }

  lemma ShownAreAcked(s: State, step: Step, s': State)
    requires Inv(s) && Next(s, step, s')
    ensures s'.acked <= s'.keyOf.Keys
    ensures forall i :: 0 <= i < |s'.blocks| && !s'.blocks[i].free ==> s'.blocks[i].addr in s'.acked
  {
    hide OneSplitter, HasKey;
    assert PcOk(s, s.pcs[step.t]) && FreezeOk(s, s.pcs[step.t]);
  }

  lemma NextKeepsInv(s: State, step: Step, s': State)
    requires Inv(s) && Next(s, step, s')
    ensures Inv(s')
  {
    OneSplitterKept(s, step, s');
    FreezesKept(s, step, s');
    WritersKept(s, step, s');
    NothingLostKept(s, step, s');
  }

  // ---- Whole runs ---------------------------------------------------------------------------------

  ghost predicate Run(run: seq<State>, steps: seq<Step>) {
    && |run| == |steps| + 1 && Init(run[0])
    && forall i :: 0 <= i < |steps| ==> Next(run[i], steps[i], run[i + 1])
  }

  lemma {:induction false} RunInv(run: seq<State>, steps: seq<Step>, i: nat)
    requires Run(run, steps) && i < |run|
    ensures Inv(run[i])
  {
    if i == 0 {
      InitInv(run[0]);
    } else {
      RunInv(run, steps, i - 1);
      NextKeepsInv(run[i - 1], steps[i - 1], run[i]);
    }
  }

  /** In every interleaving, from the read of a splitter until it writes the leaf back, the leaf is
      what the splitter read: no insert and no update changes a block. */
  lemma FrozenLeafIsImage(run: seq<State>, steps: seq<Step>, i: nat, t: Thread)
    requires Run(run, steps) && i < |run| && t in run[i].pcs && (run[i].pcs[t].Frozen? || run[i].pcs[t].Sharing?)
    ensures run[i].blocks == run[i].pcs[t].image
  {
    RunInv(run, steps, i);
    assert FreezeOk(run[i], run[i].pcs[t]);
  }

  /** A CAS that meets a splitter either lands on a block that is not locked yet, or fails. */
  lemma CasLandsBeforeLockOrFails(run: seq<State>, steps: seq<Step>, i: nat, u: Thread)
    requires Run(run, steps) && i < |steps| && steps[i].Cas? && u in run[i].pcs
    requires steps[i].t in run[i].pcs && run[i].pcs[steps[i].t].Armed?
    requires var pc := run[i].pcs[u]; pc.Freezing? || pc.Frozen? || pc.Sharing?
    ensures var pc := run[i].pcs[u]; var slot := run[i].pcs[steps[i].t].slot;
      run[i + 1].blocks != run[i].blocks ==> pc.Freezing? && pc.n <= slot
    ensures var pc := run[i].pcs[u]; var slot := run[i].pcs[steps[i].t].slot;
      run[i + 1].acked != run[i].acked ==> pc.Freezing? && pc.n <= slot
  {
    RunInv(run, steps, i);
    assert Next(run[i], steps[i], run[i + 1]);
    assert FreezeOk(run[i], run[i].pcs[u]);
    assert PcOk(run[i], run[i].pcs[steps[i].t]);
  }

  lemma {:induction false} AckedStays(run: seq<State>, steps: seq<Step>, i: nat, j: nat, a: Addr)
    requires Run(run, steps) && i <= j < |run| && a in run[i].acked && a in run[i].keyOf
    ensures a in run[j].acked && a in run[j].keyOf && run[j].keyOf[a] == run[i].keyOf[a]
  {
    hide Next, Init;
    if i < j {
      AckedStays(run, steps, i, j - 1, a);
      OnlyGrows(run[j - 1], steps[j - 1], run[j]);
    }
  }

  /** In every interleaving with any number of splits, an acknowledged insert or update is never
      lost: at every later moment its key is in the leaf, and in the image of a splitter that has
      frozen it, or in a leaf that a split has written to the right. */
  lemma AcknowledgedIsNeverLost(run: seq<State>, steps: seq<Step>, i: nat, j: nat, a: Addr)
    requires Run(run, steps) && i <= j < |run| && a in run[i].acked
    ensures a in run[i].keyOf && Kept(run[j], run[i].keyOf[a])
    ensures forall t :: t in run[j].pcs && (run[j].pcs[t].Frozen? || run[j].pcs[t].Sharing?) ==>
      HasKey(run[j].keyOf, run[j].pcs[t].image, run[i].keyOf[a]) || InRights(run[j], run[i].keyOf[a])
  {
    hide HasKey, InRights, SharedOk;
    RunInv(run, steps, i);
    AckedStays(run, steps, i, j, a);
    RunInv(run, steps, j);
    assert forall t :: t in run[j].pcs ==> FreezeOk(run[j], run[j].pcs[t]);
  }

  // ---- The item found is the one acknowledged last ---------------------------------------------

  /** Block `i` is used and has the key. */
  ghost predicate Shows(s: State, i: nat, k: Key) {
    i < |s.blocks| && !s.blocks[i].free && s.blocks[i].addr in s.keyOf && s.keyOf[s.blocks[i].addr] == k
  }

  ghost predicate AtMostOnce(s: State, k: Key) {
    forall i: nat, j: nat :: Shows(s, i, k) && Shows(s, j, k) ==> i == j
  }

  ghost predicate ShowsLatest(s: State, k: Key) {
    forall i: nat :: Shows(s, i, k) ==> k in s.latest && s.latest[k] == s.blocks[i].addr
  }

  lemma LatestKept(s: State, step: Step, s': State, k: Key)
    requires Inv(s) && Next(s, step, s') && ShowsLatest(s, k) && AtMostOnce(s', k)
    ensures ShowsLatest(s', k)
  {
    hide OneSplitter, HasKey, SharedOk, InRights;
    forall i: nat | Shows(s', i, k)
      ensures k in s'.latest && s'.latest[k] == s'.blocks[i].addr
    {
      LatestAt(s, step, s', k, i);
    }
  }

  lemma LatestAt(s: State, step: Step, s': State, k: Key, i: nat)
    requires Inv(s) && Next(s, step, s') && ShowsLatest(s, k) && AtMostOnce(s', k) && Shows(s', i, k)
    ensures k in s'.latest && s'.latest[k] == s'.blocks[i].addr
  {
    hide OneSplitter, HasKey, SharedOk, InRights;
    var pc := s.pcs[step.t];
    assert PcOk(s, pc) && FreezeOk(s, pc);
    SameSize(s, step, s');
    if step.WriteLeaf? {
      assert IsCopy(s.keyOf, pc.image, pc.mid, false, s'.blocks[i]);
      var j: nat :| j < |pc.image| && s'.blocks[i] == pc.image[j].(locked := false);
      assert Shows(s, j, k);
    } else if step.Cas? && s.blocks[pc.slot] == pc.expected {
      assert pc.key == k ==> Shows(s', pc.slot, k);
      assert i != pc.slot ==> Shows(s, i, k);
    } else {
      assert Shows(s, i, k);
    }
  }

  /** Of a key that was never in two blocks at once, the leaf shows the item acknowledged last. */
  lemma {:induction false} LastAcknowledgedIsFound(run: seq<State>, steps: seq<Step>, j: nat, k: Key)
    requires Run(run, steps) && j < |run| && forall m :: 0 <= m <= j ==> AtMostOnce(run[m], k)
    ensures ShowsLatest(run[j], k)
  {
    hide Next, Inv, AtMostOnce;
    if j > 0 {
      LastAcknowledgedIsFound(run, steps, j - 1, k);
      RunInv(run, steps, j - 1);
      LatestKept(run[j - 1], steps[j - 1], run[j], k);
    }
  }
}
