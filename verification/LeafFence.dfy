/** The fence of a leaf under concurrent inserts and splits: late inserts fail, and exactly which draws of
    free blocks keep every key inside the fence. */
module LeafFence {
  import opened Bits
  import opened FaunusNodes
  import opened FaunusContents
  import opened LeafFreeze

  // ---- Inserts that come late -----------------------------------------------------------------------

  /** The leaf written back holds, in the slot of an insert of a key that moved away, the very
      free block the insert expects. */
  ghost predicate Collides(s: State, mid: Key, blocks: seq<Block>, t: Thread) {
    && t in s.pcs && s.pcs[t].Armed? && mid <= s.pcs[t].key && s.pcs[t].slot < |blocks|
    && blocks[s.pcs[t].slot] == s.pcs[t].expected
  }

  ghost predicate Clean(s: State, step: Step, s': State) {
    step.WriteLeaf? ==> forall t :: !Collides(s, s'.hi, s'.blocks, t)
  }

  /** What slot `j` holds, but for the lock bit. */
  function Slot(s: State, j: nat): Block
    requires j < |s.blocks|
  {
    s.blocks[j].(locked := false)
  }

  /** The write-back replaces what a free slot held when the splitter locked it. */
  lemma WriteBackReplaces(s: State, step: Step, s': State, j: nat)
    requires Inv(s) && Next(s, step, s') && step.WriteLeaf? && j < |s.blocks|
    ensures |s'.blocks| == |s.blocks| && (Slot(s, j).free ==> Slot(s', j) != Slot(s, j))
  {
    hide OneSplitter, HasKey;
    assert FreezeOk(s, s.pcs[step.t]);
  }

  /** Until the next write-back a slot never gets a free block it does not hold. */
  lemma SlotStays(s: State, step: Step, s': State, j: nat, b: Block)
    requires Inv(s) && Next(s, step, s') && !step.WriteLeaf? && j < |s.blocks| && b.free && Slot(s, j) != b
    ensures j < |s'.blocks| && Slot(s', j) != b
  {
    hide OneSplitter, HasKey, HalfOf;
    assert FreezeOk(s, s.pcs[step.t]);
    SameSize(s, step, s');
  }

  /** An insert armed with what its slot held when a split locked it fails at every moment from the
      write-back of that split to the next one. */
  lemma {:induction false} LateInsertFails(run: seq<State>, steps: seq<Step>, i: nat, j: nat, t: Thread)
    requires Run(run, steps) && i < j < |run| && steps[i].WriteLeaf? && forall x :: i < x < j ==> !steps[x].WriteLeaf?
    requires t in run[i].pcs && run[i].pcs[t].Armed? && run[i].pcs[t].expected.free
    requires run[i].pcs[t].slot < |run[i].blocks| && Slot(run[i], run[i].pcs[t].slot) == run[i].pcs[t].expected
    ensures run[i].pcs[t].slot < |run[j].blocks| && Slot(run[j], run[i].pcs[t].slot) != run[i].pcs[t].expected
    ensures j < |steps| && steps[j] == Cas(t) && t in run[j].pcs && run[j].pcs[t] == run[i].pcs[t] ==>
      run[j + 1].blocks == run[j].blocks && run[j + 1].acked == run[j].acked && run[j + 1].pcs[t].Holding?
  {
    hide Inv, Init, Next;
    var pc := run[i].pcs[t];
    RunInv(run, steps, i);
    RunInv(run, steps, j - 1);
    if j == i + 1 {
      WriteBackReplaces(run[i], steps[i], run[j], pc.slot);
    } else {
      LateInsertFails(run, steps, i, j - 1, t);
      SlotStays(run[j - 1], steps[j - 1], run[j], pc.slot, pc.expected);
    }
    CasMisses(run, steps, j, t, pc);
  }

  lemma CasMisses(run: seq<State>, steps: seq<Step>, j: nat, t: Thread, pc: Pc)
    requires Run(run, steps) && j < |run| && pc.Armed? && !pc.expected.locked && pc.slot < |run[j].blocks|
    requires Slot(run[j], pc.slot) != pc.expected
    ensures j < |steps| && steps[j] == Cas(t) && t in run[j].pcs && run[j].pcs[t] == pc ==>
      run[j + 1].blocks == run[j].blocks && run[j + 1].acked == run[j].acked && run[j + 1].pcs[t].Holding?
  {
    assert j < |steps| ==> Next(run[j], steps[j], run[j + 1]);
  }

  /** Used blocks lie in the fence, and so does the key of every armed CAS that can still land. */
  ghost predicate InFence(s: State) {
    && (forall i :: 0 <= i < |s.blocks| && !s.blocks[i].free ==>
          s.blocks[i].addr in s.keyOf && s.lo <= s.keyOf[s.blocks[i].addr] < s.hi)
    && (forall t :: t in s.pcs && s.pcs[t].Armed? && s.pcs[t].slot < |s.blocks|
                    && s.blocks[s.pcs[t].slot].(locked := false) == s.pcs[t].expected
                    ==> s.lo <= s.pcs[t].key < s.hi)
  }

  lemma FenceOfBlocks(s: State, step: Step, s': State)
    requires Inv(s) && InFence(s) && Next(s, step, s')
    ensures forall i :: 0 <= i < |s'.blocks| && !s'.blocks[i].free ==>
      s'.blocks[i].addr in s'.keyOf && s'.lo <= s'.keyOf[s'.blocks[i].addr] < s'.hi
  {
    hide OneSplitter, HasKey, InRights, SharedOk;
    assert PcOk(s, s.pcs[step.t]) && FreezeOk(s, s.pcs[step.t]);
    hide Writers, Freezes;
    if step.WriteLeaf? {
      var pc := s.pcs[step.t];
      forall j | 0 <= j < |s'.blocks| && !s'.blocks[j].free
        ensures s'.blocks[j].addr in s'.keyOf && s'.lo <= s'.keyOf[s'.blocks[j].addr] < s'.hi
      {
        assert IsCopy(s.keyOf, pc.image, pc.mid, false, s'.blocks[j]);
        var i :| 0 <= i < |pc.image| && s'.blocks[j] == pc.image[i].(locked := false);
        assert !s.blocks[i].free;
      }
    }
  }

  lemma FenceOfArmed(s: State, step: Step, s': State, t: Thread)
    requires Inv(s) && InFence(s) && Next(s, step, s') && t in s'.pcs && s'.pcs[t].Armed?
    requires step.WriteLeaf? ==> !Collides(s, s'.hi, s'.blocks, t)
    requires s'.pcs[t].slot < |s'.blocks| && s'.blocks[s'.pcs[t].slot].(locked := false) == s'.pcs[t].expected
    ensures s'.lo <= s'.pcs[t].key < s'.hi
  {
    hide Inv, Next, InFence, Collides;
    OnlyMover(s, step, s');
    if t == step.t {
      JustArmed(s, step, s');
    } else if step.WriteLeaf? {
      LateArmed(s, step, s', t);
    } else {
      StillArmed(s, step, s', t);
    }
  }

  lemma JustArmed(s: State, step: Step, s': State)
    requires Next(s, step, s') && step.t in s'.pcs && s'.pcs[step.t].Armed?
    ensures s'.lo <= s'.pcs[step.t].key < s'.hi
  {
    hide HasKey, HalfOf, AllUnlocked;
  }

  /** Other steps leave the fence and, but for lock bits and blocks that become used, the slots. */
  lemma StillArmed(s: State, step: Step, s': State, t: Thread)
    requires Inv(s) && InFence(s) && Next(s, step, s') && t in s.pcs && t != step.t && s.pcs[t].Armed?
      && !step.WriteLeaf?
    requires s.pcs[t].slot < |s'.blocks| && s'.blocks[s.pcs[t].slot].(locked := false) == s.pcs[t].expected
    ensures s'.lo <= s.pcs[t].key < s'.hi
  {
    hide OneSplitter, HasKey, HalfOf, AllUnlocked, InRights, SharedOk;
    var pc := s.pcs[t];
    SameSize(s, step, s');
    assert PcOk(s, s.pcs[step.t]) && FreezeOk(s, s.pcs[step.t]) && PcOk(s, pc);
    if !step.Cas? {
      assert s.blocks[pc.slot].(locked := false) == pc.expected;
    } else {
      CasIsNotExpected(s, step, s', t);
    }
  }

  /** An acknowledged CAS leaves a block that no other CAS expects. */
  lemma CasIsNotExpected(s: State, step: Step, s': State, t: Thread)
    requires Inv(s) && Next(s, step, s') && step.Cas? && t in s.pcs && t != step.t && s.pcs[t].Armed?
      && s.pcs[t].slot < |s'.blocks|
    requires s'.blocks[s.pcs[t].slot].(locked := false) == s.pcs[t].expected
    ensures s.pcs[t].slot < |s.blocks| && s.blocks[s.pcs[t].slot] == s'.blocks[s.pcs[t].slot]
  {
    hide OneSplitter, HasKey, Freezes, InRights, SharedOk;
    assert PcOk(s, s.pcs[step.t]) && PcOk(s, s.pcs[t]);
  }

  lemma LateArmed(s: State, step: Step, s': State, t: Thread)
    requires Inv(s) && InFence(s) && Next(s, step, s') && step.WriteLeaf? && t in s.pcs && t != step.t
      && s.pcs[t].Armed?
    requires !Collides(s, s'.hi, s'.blocks, t) && s.pcs[t].slot < |s'.blocks|
    requires s'.blocks[s.pcs[t].slot].(locked := false) == s.pcs[t].expected
    ensures s'.lo <= s.pcs[t].key < s'.hi
  {
    assert PcOk(s, s.pcs[t]);
    assert !s'.blocks[s.pcs[t].slot].locked;
  }

  /** Unless a write-back collides, every key in the leaf stays inside its fence. */
  lemma FenceKept(s: State, step: Step, s': State)
    requires Inv(s) && InFence(s) && Next(s, step, s')
    requires Clean(s, step, s')
    ensures InFence(s')
  {
    FenceOfBlocks(s, step, s');
    forall t | t in s'.pcs && s'.pcs[t].Armed? && s'.pcs[t].slot < |s'.blocks|
               && s'.blocks[s'.pcs[t].slot].(locked := false) == s'.pcs[t].expected
      ensures s'.lo <= s'.pcs[t].key < s'.hi
    {
      FenceOfArmed(s, step, s', t);
    }
  }

  // ---- Which draws keep keys in the fence ---------------------------------------------------------

  /** The write-back of step `i` puts into slot `j` a free block that the slot has shown before, at a
      moment `m` when the leaf was not locked, and the split moves away a key `k` that was absent then. */
  ghost predicate Reuse(run: seq<State>, steps: seq<Step>, i: nat, m: nat, j: nat, k: Key) {
    && |run| == |steps| + 1 && m <= i < |steps| && steps[i].WriteLeaf?
    && j < |run[i + 1].blocks| && j < |run[m].blocks| && run[i + 1].blocks[j].free
    && !run[m].lock && run[m].blocks[j] == run[i + 1].blocks[j]
    && run[i + 1].hi <= k < run[m].hi && !HasKey(run[m].keyOf, run[m].blocks, k)
  }

  ghost predicate NoReuse(run: seq<State>, steps: seq<Step>, n: nat) {
    forall i: nat, m: nat, j: nat, k: Key :: i < n ==> !Reuse(run, steps, i, m, j, k)
  }

  /** What an armed CAS expects was in its slot at an earlier moment, when the leaf was not locked; an
      insert was armed because its key was absent then. */
  lemma {:induction false} ArmedSaw(run: seq<State>, steps: seq<Step>, i: nat, t: Thread) returns (m: nat)
    requires Run(run, steps) && i < |run| && t in run[i].pcs && run[i].pcs[t].Armed?
    ensures var pc := run[i].pcs[t];
      && m <= i && !run[m].lock && pc.slot < |run[m].blocks| && run[m].blocks[pc.slot] == pc.expected
      && pc.key < run[m].hi && (pc.expected.free ==> !HasKey(run[m].keyOf, run[m].blocks, pc.key))
  {
    hide HasKey, HalfOf, LeftOf, RightOf;
    assert i > 0;
    var s, step, s' := run[i - 1], steps[i - 1], run[i];
    assert Next(s, step, s');
    OnlyMover(s, step, s');
    if step.t == t {
      assert step.ReadLeaf?;
      m := i - 1;
    } else {
      m := ArmedSaw(run, steps, i - 1, t);
    }
  }

  /** A write-back that reuses nothing meets no insert that still expects what it writes. */
  lemma NoReuseIsClean(run: seq<State>, steps: seq<Step>, i: nat)
    requires Run(run, steps) && i < |steps| && NoReuse(run, steps, i + 1)
    ensures Clean(run[i], steps[i], run[i + 1])
  {
    var s, step, s' := run[i], steps[i], run[i + 1];
    assert Next(s, step, s');
    if step.WriteLeaf? {
      RunInv(run, steps, i);
      forall t | t in s.pcs && s.pcs[t].Armed?
        ensures !Collides(s, s'.hi, s'.blocks, t)
      {
        var m := ArmedSaw(run, steps, i, t);
        var pc := s.pcs[t];
        assert !Reuse(run, steps, i, m, pc.slot, pc.key);
        if !pc.expected.free {
          UpdateNeverCollides(s, step, s', t);
        }
      }
    }
  }

  lemma UpdateNeverCollides(s: State, step: Step, s': State, t: Thread)
    requires Inv(s) && Next(s, step, s') && step.WriteLeaf? && t in s.pcs && s.pcs[t].Armed? && !s.pcs[t].expected.free
    ensures !Collides(s, s'.hi, s'.blocks, t)
  {
    hide OneSplitter, HasKey;
    var pc := s.pcs[t];
    assert PcOk(s, pc);
    if pc.slot < |s'.blocks| && s'.blocks[pc.slot] == pc.expected {
      assert IsCopy(s.keyOf, s.pcs[step.t].image, s'.hi, false, s'.blocks[pc.slot]);
    }
  }

  lemma StartsInFence(s: State)
    requires Init(s)
    ensures InFence(s)
  {
    assert forall i :: 0 <= i < |s.blocks| && !s.blocks[i].free ==> StartsOk(s, s.blocks[i].addr);
  }

  /** In every run whose write-backs reuse nothing, at every moment, the leaf holds keys of its fence
      only, and so does every CAS that can still land. */
  lemma {:induction false} RunStaysInFence(run: seq<State>, steps: seq<Step>, i: nat)
    requires Run(run, steps) && i < |run| && NoReuse(run, steps, i)
    ensures InFence(run[i])
  {
    hide Inv, InFence, Clean, Next, Init, Reuse;
    if i == 0 {
      StartsInFence(run[0]);
    } else {
      RunStaysInFence(run, steps, i - 1);
      RunInv(run, steps, i - 1);
      NoReuseIsClean(run, steps, i - 1);
      assert Next(run[i - 1], steps[i - 1], run[i]);
      FenceKept(run[i - 1], steps[i - 1], run[i]);
    }
  }

  // ---- The converse: any reuse is fatal -------------------------------------------------------------

  /** The state with one more thread. */
  function Beside(s: State, u: Thread, pc: Pc): State {
    Goto(s, u, pc)
  }

  /** The state with one more thread that has written an item. */
  function Behind(s: State, u: Thread, pc: Pc, a: Addr, k: Key): State {
    Goto(s, u, pc).(keyOf := s.keyOf[a := k])
  }

  lemma StepBeside(s: State, step: Step, s': State, u: Thread)
    requires Next(s, step, s') && u !in s.pcs
    ensures u != step.t && Next(Beside(s, u, Idle), step, Beside(s', u, Idle)) && u !in s'.pcs
  {
    hide HasKey, HalfOf, AllUnlocked;
    OnlyMover(s, step, s');
    assert step.t in s.pcs;
    assert s.pcs[u := Idle][step.t := s'.pcs[step.t]] == s.pcs[step.t := s'.pcs[step.t]][u := Idle];
  }

  /** The image shows no item that is not written. */
  ghost predicate Unseen(blocks: seq<Block>, a: Addr) {
    forall i :: 0 <= i < |blocks| && !blocks[i].free ==> blocks[i].addr != a
  }

  lemma SameHasKey(keyOf: map<Addr, Key>, blocks: seq<Block>, a: Addr, k: Key, key: Key)
    requires Unseen(blocks, a)
    ensures HasKey(keyOf[a := k], blocks, key) <==> HasKey(keyOf, blocks, key)
  {
    var more := keyOf[a := k];
    assert forall i :: 0 <= i < |blocks| && !blocks[i].free ==> (blocks[i].addr in more <==> blocks[i].addr in keyOf);
  }

  lemma SameKeysOf(keyOf: map<Addr, Key>, blocks: seq<Block>, a: Addr, k: Key)
    requires Unseen(blocks, a)
    ensures KeysOf(keyOf[a := k], blocks) == KeysOf(keyOf, blocks)
  {
  }

  lemma SameHalf(keyOf: map<Addr, Key>, image: seq<Block>, mid: Key, right: bool, blocks: seq<Block>, a: Addr, k: Key)
    requires HalfOf(keyOf, image, mid, right, blocks) && a !in keyOf && Unseen(image, a)
    ensures HalfOf(keyOf[a := k], image, mid, right, blocks)
  {
    var more := keyOf[a := k];
    assert Unseen(blocks, a) by {
      assert forall j :: 0 <= j < |blocks| && !blocks[j].free ==> IsCopy(keyOf, image, mid, right, blocks[j]);
    }
    forall j | 0 <= j < |blocks| && !blocks[j].free
      ensures IsCopy(more, image, mid, right, blocks[j])
    {
      assert IsCopy(keyOf, image, mid, right, blocks[j]);
    }
    SameKeysOf(keyOf, image, a, k);
    forall key | key in KeysOf(more, image) && OnSide(key, mid, right)
      ensures HasKey(more, blocks, key)
    {
      SameHasKey(keyOf, blocks, a, k, key);
    }
  }

  /** A step that looks at keys: what it sees is the same. */
  lemma SameView(s: State, step: Step, s': State, a: Addr, k: Key)
    requires Inv(s) && Next(s, step, s') && a !in s'.keyOf && step.t in s.pcs
    ensures a !in s.keyOf
    ensures step.ReadLeaf? ==>
      (HasKey(s.keyOf[a := k], s.blocks, s.pcs[step.t].key) <==> HasKey(s.keyOf, s.blocks, s.pcs[step.t].key))
    ensures step.WriteSibling? || step.StartThaw? ==>
      KeysOf(s.keyOf[a := k], s.pcs[step.t].image) == KeysOf(s.keyOf, s.pcs[step.t].image)
    ensures step.WriteSibling? ==> HalfOf(s.keyOf[a := k], s.pcs[step.t].image, step.mid, true, step.blocks)
    ensures step.WriteLeaf? ==> HalfOf(s.keyOf[a := k], s.pcs[step.t].image, s.pcs[step.t].mid, false, step.blocks)
  {
    hide HasKey, HalfOf, OneSplitter, Writers, KeysOf, InRights, SharedOk;
    var me := s.pcs[step.t];
    assert FreezeOk(s, me) && a !in s.keyOf && Unseen(s.blocks, a);
    hide FreezeOk, NothingLost, Freezes;
    match step
    case ReadLeaf(t, i) => SameHasKey(s.keyOf, s.blocks, a, k, me.key);
    case WriteSibling(t, mid, blocks) =>
      SameKeysOf(s.keyOf, me.image, a, k);
      SameHalf(s.keyOf, me.image, mid, true, blocks, a, k);
    case WriteLeaf(t, blocks) => SameHalf(s.keyOf, me.image, me.mid, false, blocks, a, k);
    case StartThaw(t) => SameKeysOf(s.keyOf, me.image, a, k);
    case _ =>
  }

  /** Steps that look at keys or write an item. */
  predicate LooksAtKeys(step: Step) {
    step.WriteItem? || step.ReadLeaf? || step.WriteSibling? || step.WriteLeaf? || step.StartThaw?
  }

  lemma StepBehind(s: State, step: Step, s': State, u: Thread, pc: Pc, a: Addr, k: Key)
    requires Inv(s) && Next(s, step, s') && u !in s.pcs && a !in s'.keyOf
    ensures Next(Behind(s, u, pc, a, k), step, Behind(s', u, pc, a, k))
  {
    hide Inv, Next;
    OnlyMover(s, step, s');
    SameView(s, step, s', a, k);
    assert s.pcs[u := pc][step.t := s'.pcs[step.t]] == s'.pcs[u := pc];
    if LooksAtKeys(step) {
      StepBehindKeys(s, step, s', u, pc, a, k);
    } else {
      StepBehindBlocks(s, step, s', u, pc, a, k);
    }
  }

  lemma StepBehindKeys(s: State, step: Step, s': State, u: Thread, pc: Pc, a: Addr, k: Key)
    requires Next(s, step, s') && LooksAtKeys(step) && u !in s.pcs && step.t in s.pcs && step.t in s'.pcs
    requires a !in s.keyOf && a !in s'.keyOf && s.pcs[u := pc][step.t := s'.pcs[step.t]] == s'.pcs[u := pc]
    requires step.ReadLeaf? ==>
      (HasKey(s.keyOf[a := k], s.blocks, s.pcs[step.t].key) <==> HasKey(s.keyOf, s.blocks, s.pcs[step.t].key))
    requires step.WriteSibling? || step.StartThaw? ==>
      KeysOf(s.keyOf[a := k], s.pcs[step.t].image) == KeysOf(s.keyOf, s.pcs[step.t].image)
    requires step.WriteSibling? ==> HalfOf(s.keyOf[a := k], s.pcs[step.t].image, step.mid, true, step.blocks)
    requires step.WriteLeaf? ==> HalfOf(s.keyOf[a := k], s.pcs[step.t].image, s.pcs[step.t].mid, false, step.blocks)
    ensures Next(Behind(s, u, pc, a, k), step, Behind(s', u, pc, a, k))
  {
    hide HasKey, HalfOf, KeysOf, AllUnlocked;
    if step.WriteItem? {
      assert s.keyOf[a := k][step.addr := step.key] == s.keyOf[step.addr := step.key][a := k];
    }
  }

  lemma StepBehindBlocks(s: State, step: Step, s': State, u: Thread, pc: Pc, a: Addr, k: Key)
    requires Next(s, step, s') && !LooksAtKeys(step) && u !in s.pcs && step.t in s.pcs && step.t in s'.pcs
    requires s.pcs[u := pc][step.t := s'.pcs[step.t]] == s'.pcs[u := pc]
    ensures Next(Behind(s, u, pc, a, k), step, Behind(s', u, pc, a, k))
  {
    hide HasKey, HalfOf, KeysOf, AllUnlocked;
  }

  lemma {:induction false} ThreadsStay(run: seq<State>, steps: seq<Step>, i: nat)
    requires Run(run, steps) && i < |run|
    ensures run[i].pcs.Keys == run[0].pcs.Keys
  {
    hide Next, Init;
    if i > 0 {
      ThreadsStay(run, steps, i - 1);
      OnlyMover(run[i - 1], steps[i - 1], run[i]);
    }
  }

  lemma {:induction false} ItemsStay(run: seq<State>, steps: seq<Step>, i: nat, j: nat)
    requires Run(run, steps) && i <= j < |run|
    ensures run[i].keyOf.Keys <= run[j].keyOf.Keys && run[i].lo == run[j].lo
  {
    hide Next, Init;
    if i < j {
      ItemsStay(run, steps, i, j - 1);
      OnlyGrows(run[j - 1], steps[j - 1], run[j]);
    }
  }

  /** The late CAS: it lands, and its key lies outside the fence. */
  function Landed(s: State, u: Thread, key: Key, a: Addr, slot: nat): State
    requires slot < |s.blocks|
  {
    Goto(s, u, Idle).(blocks := s.blocks[slot := Block(Fp(key), a, false, false)],
                      acked := s.acked + {a}, latest := s.latest[key := a])
  }

  /** A run with a late insert beside it: thread `u` writes item `a` and reads slot `j` at moment `m`,
      and its CAS follows the write-back of step `i`. */
  function LateRun(run: seq<State>, i: nat, m: nat, j: nat, k: Key, u: Thread, a: Addr): (late: seq<State>)
    requires m <= i && i + 1 < |run| && j < |run[m].blocks| && j < |run[i + 1].blocks|
    ensures |late| == i + 5
  {
    var armed := Armed(k, a, j, run[m].blocks[j]);
    seq(m + 1, x requires 0 <= x < m + 1 => Beside(run[x], u, Idle))
    + [Behind(run[m], u, Holding(k, a), a, k)]
    + seq(i + 2 - m, x requires 0 <= x < i + 2 - m => Behind(run[m + x], u, armed, a, k))
    + [Landed(Behind(run[i + 1], u, armed, a, k), u, k, a, j)]
  }

  function LateSteps(steps: seq<Step>, i: nat, m: nat, j: nat, k: Key, u: Thread, a: Addr): (late: seq<Step>)
    requires m <= i < |steps|
    ensures |late| == i + 4
  {
    steps[..m] + [WriteItem(u, k, a), ReadLeaf(u, j)] + steps[m..i + 1] + [Cas(u)]
  }

  lemma LateStates(run: seq<State>, i: nat, m: nat, j: nat, k: Key, u: Thread, a: Addr)
    requires m <= i && i + 1 < |run| && j < |run[m].blocks| && j < |run[i + 1].blocks|
    ensures var late := LateRun(run, i, m, j, k, u, a); var armed := Armed(k, a, j, run[m].blocks[j]);
      && (forall x :: 0 <= x <= m ==> late[x] == Beside(run[x], u, Idle))
      && late[m + 1] == Behind(run[m], u, Holding(k, a), a, k)
      && (forall x :: m + 2 <= x <= i + 3 ==> late[x] == Behind(run[x - 2], u, armed, a, k))
      && late[i + 4] == Landed(Behind(run[i + 1], u, armed, a, k), u, k, a, j)
  {
    hide Beside, Landed;
  }

  lemma LateStepsAre(steps: seq<Step>, i: nat, m: nat, j: nat, k: Key, u: Thread, a: Addr)
    requires m <= i < |steps|
    ensures var more := LateSteps(steps, i, m, j, k, u, a);
      && (forall x :: 0 <= x < m ==> more[x] == steps[x])
      && more[m] == WriteItem(u, k, a) && more[m + 1] == ReadLeaf(u, j)
      && (forall x :: m + 2 <= x < i + 3 ==> more[x] == steps[x - 2])
      && more[i + 3] == Cas(u)
  {
  }

  lemma EarlyStep(run: seq<State>, steps: seq<Step>, x: nat, u: Thread)
    requires Run(run, steps) && x < |steps| && u !in run[0].pcs
    ensures Next(Beside(run[x], u, Idle), steps[x], Beside(run[x + 1], u, Idle))
  {
    hide Next, Init;
    ThreadsStay(run, steps, x);
    StepBeside(run[x], steps[x], run[x + 1], u);
  }

  lemma LaterStep(run: seq<State>, steps: seq<Step>, x: nat, i: nat, u: Thread, pc: Pc, a: Addr, k: Key)
    requires Run(run, steps) && x <= i < |steps| && u !in run[0].pcs && a !in run[i + 1].keyOf
    ensures Next(Behind(run[x], u, pc, a, k), steps[x], Behind(run[x + 1], u, pc, a, k))
  {
    hide Next, Init, Inv;
    ThreadsStay(run, steps, x);
    RunInv(run, steps, x);
    ItemsStay(run, steps, x + 1, i + 1);
    StepBehind(run[x], steps[x], run[x + 1], u, pc, a, k);
  }

  lemma LateItem(s: State, u: Thread, k: Key, a: Addr)
    requires a !in s.keyOf
    ensures Next(Beside(s, u, Idle), WriteItem(u, k, a), Behind(s, u, Holding(k, a), a, k))
  {
    assert s.pcs[u := Idle][u := Holding(k, a)] == s.pcs[u := Holding(k, a)];
  }

  lemma LateCas(s: State, u: Thread, k: Key, a: Addr, j: nat)
    requires j < |s.blocks|
    ensures var g := Behind(s, u, Armed(k, a, j, s.blocks[j]), a, k);
      Next(g, Cas(u), Landed(g, u, k, a, j))
  {
  }

  lemma LateRead(run: seq<State>, steps: seq<Step>, i: nat, m: nat, j: nat, k: Key, u: Thread, a: Addr)
    requires Run(run, steps) && Reuse(run, steps, i, m, j, k) && a !in run[i + 1].keyOf
    ensures Next(Behind(run[m], u, Holding(k, a), a, k), ReadLeaf(u, j),
                 Behind(run[m], u, Armed(k, a, j, run[m].blocks[j]), a, k))
  {
    hide HasKey, HalfOf, OneSplitter, Writers;
    var s := run[m];
    RunInv(run, steps, m);
    RunInv(run, steps, i);
    ItemsStay(run, steps, m, i + 1);
    ItemsStay(run, steps, i, i + 1);
    assert Unseen(s.blocks, a);
    SameHasKey(s.keyOf, s.blocks, a, k, k);
    assert Next(run[i], steps[i], run[i + 1]) && FreezeOk(run[i], run[i].pcs[steps[i].t]);
    ItemsStay(run, steps, m, i);
    var armed := Armed(k, a, j, s.blocks[j]);
    assert s.pcs[u := Holding(k, a)][u := armed] == s.pcs[u := armed];
  }

  /** Any reuse is fatal: with one more client beside it, whose insert read the slot at that earlier
      moment and sends its CAS after the write-back, the same run puts a key outside the fence. */
  lemma ReuseBreaksFence(run: seq<State>, steps: seq<Step>, i: nat, m: nat, j: nat, k: Key, u: Thread, a: Addr)
    requires Run(run, steps) && Reuse(run, steps, i, m, j, k) && u !in run[0].pcs && a !in run[i + 1].keyOf
    ensures var late, more := LateRun(run, i, m, j, k, u, a), LateSteps(steps, i, m, j, k, u, a);
      Run(late, more) && Shows(late[|more|], j, k) && late[|more|].hi <= k && !InFence(late[|more|])
  {
    LateRunIsRun(run, steps, i, m, j, k, u, a);
    LateStates(run, i, m, j, k, u, a);
    hide Run, HasKey, LateRun, LateSteps;
    assert Shows(LateRun(run, i, m, j, k, u, a)[i + 4], j, k);
  }

  lemma LateRunIsRun(run: seq<State>, steps: seq<Step>, i: nat, m: nat, j: nat, k: Key, u: Thread, a: Addr)
    requires Run(run, steps) && Reuse(run, steps, i, m, j, k) && u !in run[0].pcs && a !in run[i + 1].keyOf
    ensures Run(LateRun(run, i, m, j, k, u, a), LateSteps(steps, i, m, j, k, u, a))
  {
    hide Next, HasKey, Init;
    var late, more := LateRun(run, i, m, j, k, u, a), LateSteps(steps, i, m, j, k, u, a);
    LateStates(run, i, m, j, k, u, a);
    LateStepsAre(steps, i, m, j, k, u, a);
    StartsBeside(run[0], u);
    hide LateRun, LateSteps, Landed, Beside;
    forall x | 0 <= x < |more|
      ensures Next(late[x], more[x], late[x + 1])
    {
      LateStep(run, steps, i, m, j, k, u, a, late, more, x);
    }
  }

  lemma LateStep(run: seq<State>, steps: seq<Step>, i: nat, m: nat, j: nat, k: Key, u: Thread, a: Addr,
                 late: seq<State>, more: seq<Step>, x: nat)
    requires Run(run, steps) && Reuse(run, steps, i, m, j, k) && u !in run[0].pcs && a !in run[i + 1].keyOf
    requires |late| == i + 5 && |more| == i + 4 && x < i + 4
    requires x <= m ==> late[x] == Beside(run[x], u, Idle)
    requires x < m ==> late[x + 1] == Beside(run[x + 1], u, Idle) && more[x] == steps[x]
    requires x == m ==> late[x + 1] == Behind(run[m], u, Holding(k, a), a, k) && more[x] == WriteItem(u, k, a)
    requires x == m + 1 ==> late[x] == Behind(run[m], u, Holding(k, a), a, k) && more[x] == ReadLeaf(u, j)
    requires m + 2 <= x <= i + 3 ==> late[x] == Behind(run[x - 2], u, Armed(k, a, j, run[m].blocks[j]), a, k)
    requires m + 1 <= x < i + 3 ==> late[x + 1] == Behind(run[x - 1], u, Armed(k, a, j, run[m].blocks[j]), a, k)
    requires m + 2 <= x < i + 3 ==> more[x] == steps[x - 2]
    requires x == i + 3 ==> late[x + 1] == Landed(late[x], u, k, a, j) && more[x] == Cas(u)
    ensures Next(late[x], more[x], late[x + 1])
  {
    hide Next, Init, HasKey;
    if x < m {
      EarlyStep(run, steps, x, u);
    } else if x <= m + 1 {
      LateItemAndRead(run, steps, i, m, j, k, u, a);
    } else if x < i + 3 {
      LaterStep(run, steps, x - 2, i, u, Armed(k, a, j, run[m].blocks[j]), a, k);
    } else {
      LateCas(run[i + 1], u, k, a, j);
    }
  }

  lemma LateItemAndRead(run: seq<State>, steps: seq<Step>, i: nat, m: nat, j: nat, k: Key, u: Thread, a: Addr)
    requires Run(run, steps) && Reuse(run, steps, i, m, j, k) && a !in run[i + 1].keyOf
    ensures var s := run[m]; var armed := Armed(k, a, j, s.blocks[j]);
      && Next(Beside(s, u, Idle), WriteItem(u, k, a), Behind(s, u, Holding(k, a), a, k))
      && Next(Behind(s, u, Holding(k, a), a, k), ReadLeaf(u, j), Behind(s, u, armed, a, k))
  {
    hide Next, Init, HasKey;
    ItemsStay(run, steps, m, i + 1);
    LateItem(run[m], u, k, a);
    LateRead(run, steps, i, m, j, k, u, a);
  }

  lemma StartsBeside(s: State, u: Thread)
    requires Init(s)
    ensures Init(Beside(s, u, Idle))
  {
    hide HasKey;
    var g := Beside(s, u, Idle);
    forall i | 0 <= i < |g.blocks| && !g.blocks[i].free
      ensures StartsOk(g, g.blocks[i].addr)
    {
      assert StartsOk(s, s.blocks[i].addr);
    }
  }

  // ---- One split is enough ----------------------------------------------------------------------------

  ghost predicate Path(run: seq<State>, steps: seq<Step>) {
    && |run| == |steps| + 1
    && forall i :: 0 <= i < |steps| ==> Next(run[i], steps[i], run[i + 1])
  }

  lemma Join(run: seq<State>, steps: seq<Step>, run': seq<State>, steps': seq<Step>)
    requires Path(run, steps) && Path(run', steps') && run[|steps|] == run'[0]
    ensures Path(run + run'[1..], steps + steps')
    ensures (run + run'[1..])[|steps| + |steps'|] == run'[|steps'|]
  {
    hide Next;
    var r, s := run + run'[1..], steps + steps';
    forall i | 0 <= i < |s|
      ensures Next(r[i], s[i], r[i + 1])
    {
      if i >= |steps| {
        assert s[i] == steps'[i - |steps|] && r[i + 1] == run'[i - |steps| + 1];
        assert r[i] == run'[i - |steps|];
      }
    }
  }

  function BlockFor(key: Key, a: Addr): Block {
    Block(Fp(key), a, false, false)
  }

  /** Writing an item and reading a free slot. */
  function Ready(s: State, t: Thread, k: Key, a: Addr, slot: nat): State
    requires slot < |s.blocks|
  {
    Behind(s, t, Armed(k, a, slot, s.blocks[slot]), a, k)
  }

  lemma ReadySteps(s: State, t: Thread, k: Key, a: Addr, slot: nat) returns (run: seq<State>, steps: seq<Step>)
    requires At(s, t, Idle) && a !in s.keyOf && slot < |s.blocks| && s.blocks[slot].free && !s.lock && s.lo <= k < s.hi
    requires AllUnlocked(s.blocks) && Unseen(s.blocks, a) && !HasKey(s.keyOf, s.blocks, k)
    ensures Path(run, steps) && run[0] == s && run[|steps|] == Ready(s, t, k, a, slot)
    ensures forall i :: 0 <= i < |steps| ==> !steps[i].WriteLeaf?
  {
    var s1 := Behind(s, t, Holding(k, a), a, k);
    SameHasKey(s.keyOf, s.blocks, a, k, k);
    assert Next(s, WriteItem(t, k, a), s1);
    assert s1.pcs[t := Armed(k, a, slot, s.blocks[slot])] == s.pcs[t := Armed(k, a, slot, s.blocks[slot])];
    assert Next(s1, ReadLeaf(t, slot), Ready(s, t, k, a, slot));
    run, steps := [s, s1, Ready(s, t, k, a, slot)], [WriteItem(t, k, a), ReadLeaf(t, slot)];
  }

  /** A whole insert. */
  lemma InsertSteps(s: State, t: Thread, k: Key, a: Addr, slot: nat) returns (run: seq<State>, steps: seq<Step>)
    requires At(s, t, Idle) && a !in s.keyOf && slot < |s.blocks| && s.blocks[slot].free && !s.lock && s.lo <= k < s.hi
    requires AllUnlocked(s.blocks) && Unseen(s.blocks, a) && !HasKey(s.keyOf, s.blocks, k)
    ensures Path(run, steps) && run[0] == s && run[|steps|] == Inserted(s, t, k, a, slot)
    ensures forall i :: 0 <= i < |steps| ==> !steps[i].WriteLeaf?
  {
    hide Next, HasKey;
    run, steps := ReadySteps(s, t, k, a, slot);
    var armed, done := Ready(s, t, k, a, slot), Inserted(s, t, k, a, slot);
    LateCas(s, t, k, a, slot);
    assert Landed(armed, t, k, a, slot) == done by {
      assert s.pcs[t := Armed(k, a, slot, s.blocks[slot])][t := Idle] == s.pcs;
    }
    Join(run, steps, [armed, done], [Cas(t)]);
    run, steps := run + [armed, done][1..], steps + [Cas(t)];
  }

  function Inserted(s: State, t: Thread, k: Key, a: Addr, slot: nat): State
    requires slot < |s.blocks|
  {
    s.(keyOf := s.keyOf[a := k], blocks := s.blocks[slot := BlockFor(k, a)], acked := s.acked + {a},
       latest := s.latest[k := a])
  }

  const EMPTY: Block := Block(0, 0, true, false)
  const OTHER: Block := Block(0, 1, true, false)

  /** The first leaf, and the leaf with keys 3, 5 and 7, while the insert of key 9 by thread 0, armed
      when slot 1 was free, is still on its way. */
  function FirstLeaf(): State {
    State(false, 0, 10, [EMPTY, EMPTY, EMPTY, EMPTY], map[], {}, map[], [], map[0 := Idle, 1 := Idle])
  }

  function ThreeKeys(): State {
    State(false, 0, 10, [BlockFor(3, 103), BlockFor(5, 105), BlockFor(7, 107), EMPTY],
          map[109 := 9, 103 := 3, 105 := 5, 107 := 7],
          {103, 105, 107}, map[3 := 103, 5 := 105, 7 := 107], [], map[0 := Armed(9, 109, 1, EMPTY), 1 := Idle])
  }

  /** One insert of thread 1 at the end of a path. */
  lemma OneMoreInsert(run: seq<State>, steps: seq<Step>, s: State, k: Key, a: Addr, slot: nat)
    returns (run': seq<State>, steps': seq<Step>)
    requires Path(run, steps) && run[|steps|] == s && forall i :: 0 <= i < |steps| ==> !steps[i].WriteLeaf?
    requires At(s, 1, Idle) && a !in s.keyOf && slot < |s.blocks| && s.blocks[slot].free && !s.lock && s.lo <= k < s.hi
    requires AllUnlocked(s.blocks) && Unseen(s.blocks, a) && !HasKey(s.keyOf, s.blocks, k)
    ensures Path(run', steps') && run'[0] == run[0] && run'[|steps'|] == Inserted(s, 1, k, a, slot)
    ensures forall i :: 0 <= i < |steps'| ==> !steps'[i].WriteLeaf?
  {
    hide Next, HasKey, AllUnlocked, Unseen, Inserted;
    var r, q := InsertSteps(s, 1, k, a, slot);
    Join(run, steps, r, q);
    run', steps' := run + r[1..], steps + q;
  }

  function NoKey(): State {
    State(false, 0, 10, [EMPTY, EMPTY, EMPTY, EMPTY], map[109 := 9], {}, map[], [],
          map[0 := Armed(9, 109, 1, EMPTY), 1 := Idle])
  }

  function OneKey(): State {
    State(false, 0, 10, [BlockFor(3, 103), EMPTY, EMPTY, EMPTY], map[109 := 9, 103 := 3], {103}, map[3 := 103], [],
          map[0 := Armed(9, 109, 1, EMPTY), 1 := Idle])
  }

  function TwoKeys(): State {
    State(false, 0, 10, [BlockFor(3, 103), BlockFor(5, 105), EMPTY, EMPTY], map[109 := 9, 103 := 3, 105 := 5],
          {103, 105}, map[3 := 103, 5 := 105], [], map[0 := Armed(9, 109, 1, EMPTY), 1 := Idle])
  }

  lemma ReadNoKey() returns (run: seq<State>, steps: seq<Step>)
    ensures Path(run, steps) && run[0] == FirstLeaf() && run[|steps|] == NoKey()
    ensures forall i :: 0 <= i < |steps| ==> !steps[i].WriteLeaf?
  {
    hide Next;
    run, steps := ReadySteps(FirstLeaf(), 0, 9, 109, 1);
    assert Ready(FirstLeaf(), 0, 9, 109, 1) == NoKey();
  }

  lemma ZeroToOne() returns (run: seq<State>, steps: seq<Step>)
    ensures Path(run, steps) && run[0] == FirstLeaf() && run[|steps|] == OneKey()
    ensures forall i :: 0 <= i < |steps| ==> !steps[i].WriteLeaf?
  {
    hide Next;
    run, steps := ReadNoKey();
    assert Inserted(NoKey(), 1, 3, 103, 0) == OneKey();
    run, steps := OneMoreInsert(run, steps, NoKey(), 3, 103, 0);
  }

  lemma OneToThree(run: seq<State>, steps: seq<Step>) returns (run': seq<State>, steps': seq<Step>)
    requires Path(run, steps) && run[|steps|] == OneKey() && forall i :: 0 <= i < |steps| ==> !steps[i].WriteLeaf?
    ensures Path(run', steps') && run'[0] == run[0] && run'[|steps'|] == ThreeKeys()
    ensures forall i :: 0 <= i < |steps'| ==> !steps'[i].WriteLeaf?
  {
    hide Next;
    assert Inserted(OneKey(), 1, 5, 105, 1) == TwoKeys();
    run', steps' := OneMoreInsert(run, steps, OneKey(), 5, 105, 1);
    assert Inserted(TwoKeys(), 1, 7, 107, 2) == ThreeKeys();
    run', steps' := OneMoreInsert(run', steps', TwoKeys(), 7, 107, 2);
  }

  lemma FillSteps() returns (run: seq<State>, steps: seq<Step>)
    ensures Path(run, steps) && run[0] == FirstLeaf() && run[|steps|] == ThreeKeys()
    ensures forall i :: 0 <= i < |steps| ==> !steps[i].WriteLeaf?
  {
    hide Next;
    run, steps := ZeroToOne();
    run, steps := OneToThree(run, steps);
  }

  function Locking(s: State, t: Thread, n: nat): State
    requires n <= |s.blocks|
  {
    Goto(s, t, Freezing(n)).(
      lock := true,
      blocks := seq(|s.blocks|, i requires 0 <= i < |s.blocks| => s.blocks[i].(locked := i < n)))
  }

  /** A splitter locks node and blocks and reads the leaf. */
  lemma {:induction false} LockSteps(s: State, t: Thread, n: nat) returns (run: seq<State>, steps: seq<Step>)
    requires At(s, t, Idle) && !s.lock && AllUnlocked(s.blocks) && n <= |s.blocks|
    ensures Path(run, steps) && run[0] == s && run[|steps|] == Locking(s, t, n)
    ensures forall i :: 0 <= i < |steps| ==> !steps[i].WriteLeaf?
  {
    if n == 0 {
      assert Locking(s, t, 0).blocks == s.blocks;
      run, steps := [s, Locking(s, t, 0)], [LockNode(t)];
    } else {
      run, steps := LockSteps(s, t, n - 1);
      var g, h := Locking(s, t, n - 1), Locking(s, t, n);
      assert h.blocks == g.blocks[n - 1 := FaaUp(g.blocks[n - 1])];
      assert h.pcs == g.pcs[t := Freezing(n)];
      assert Next(g, FaaLock(t), h);
      hide Next;
      Join(run, steps, [g, h], [FaaLock(t)]);
      run, steps := run + [g, h][1..], steps + [FaaLock(t)];
    }
  }

  /** The leaf after the split at key 5: slot 1 holds again the free block it held at first. */
  function AfterSplit(): State {
    Goto(ThreeKeys(), 1, Linking).(lock := true, hi := 5, blocks := [BlockFor(3, 103), EMPTY, OTHER, OTHER],
                                   rights := Written())
  }

  function Image(): seq<Block> {
    [BlockFor(3, 103).(locked := true), BlockFor(5, 105).(locked := true), BlockFor(7, 107).(locked := true),
     EMPTY.(locked := true)]
  }

  function Upper(): seq<Block> {
    [BlockFor(5, 105), BlockFor(7, 107), EMPTY, EMPTY]
  }

  /** With the leaf frozen, and with the upper half written. */
  function FrozenLeaf(pc: Pc, rights: seq<Right>): State {
    Goto(ThreeKeys(), 1, pc).(lock := true, blocks := Image(), rights := rights)
  }

  function Written(): seq<Right> {
    [Right(5, 10, Upper())]
  }

  lemma SplitSteps() returns (run: seq<State>, steps: seq<Step>)
    ensures Path(run, steps) && run[0] == FrozenLeaf(Freezing(4), []) && run[|steps|] == AfterSplit()
    ensures |steps| == 3 && steps[2].WriteLeaf? && !steps[0].WriteLeaf? && !steps[1].WriteLeaf?
  {
    assert Next(FrozenLeaf(Freezing(4), []), ReadImage(1), FrozenLeaf(Frozen(Image()), [])) by {
      hide HalfOf, KeysOf, HasKey;
    }
    SiblingStep();
    WriteBackStep();
    hide Next, HalfOf, FrozenLeaf, AfterSplit, Image, Upper, Written;
    run := [FrozenLeaf(Freezing(4), []), FrozenLeaf(Frozen(Image()), []),
            FrozenLeaf(Sharing(Image(), 5), Written()), AfterSplit()];
    steps := [ReadImage(1), WriteSibling(1, 5, Upper()), WriteLeaf(1, AfterSplit().blocks)];
  }

  lemma SiblingStep()
    ensures Next(FrozenLeaf(Frozen(Image()), []), WriteSibling(1, 5, Upper()),
                 FrozenLeaf(Sharing(Image(), 5), Written()))
  {
    hide HalfOf, KeysOf, HasKey, Image, Upper, RightOf, LeftOf, ThreeKeys, AllUnlocked;
    ImageFacts();
    var s, g := FrozenLeaf(Frozen(Image()), []), FrozenLeaf(Sharing(Image(), 5), Written());
    assert s.pcs[1 := Sharing(Image(), 5)] == g.pcs;
    assert [] + Written() == Written();
  }

  lemma ImageFacts()
    ensures ThreeKeys().lo == 0 && ThreeKeys().hi == 10 && |Image()| == 4
    ensures |KeysOf(ThreeKeys().keyOf, Image())| == 3 && RightOf(ThreeKeys().keyOf, Image(), 5, Upper())
  {
    hide HalfOf, KeysOf, HasKey, RightOf;
    ImageKeys();
    UpperHalf();
  }

  lemma WriteBackStep()
    ensures Next(FrozenLeaf(Sharing(Image(), 5), Written()), WriteLeaf(1, AfterSplit().blocks), AfterSplit())
  {
    var s, g := FrozenLeaf(Sharing(Image(), 5), Written()), AfterSplit();
    LowerHalf();
    hide LeftOf, KeysOf, HasKey, Image;
    assert s.pcs[1 := Linking] == g.pcs;
  }

  lemma LockedIsFrozen()
    ensures Locking(ThreeKeys(), 1, 4) == FrozenLeaf(Freezing(4), [])
  {
    var s := Locking(ThreeKeys(), 1, 4);
    assert s.blocks == Image();
    assert s.pcs == FrozenLeaf(Freezing(4), []).pcs;
  }

  lemma ImageKeys()
    ensures KeysOf(ThreeKeys().keyOf, Image()) == {3, 5, 7} && |KeysOf(ThreeKeys().keyOf, Image())| == 3
  {
    var keyOf, image := ThreeKeys().keyOf, Image();
    assert 3 == keyOf[image[0].addr] && 5 == keyOf[image[1].addr] && 7 == keyOf[image[2].addr];
    assert KeysOf(keyOf, image) == {3, 5, 7};
  }

  lemma UpperHalf()
    ensures RightOf(ThreeKeys().keyOf, Image(), 5, Upper())
  {
    ImageKeys();
    hide KeysOf;
    var keyOf, image, upper := ThreeKeys().keyOf, Image(), Upper();
    assert upper[0] == image[1].(locked := false) && upper[1] == image[2].(locked := false);
    assert HasKey(keyOf, upper, 5) && HasKey(keyOf, upper, 7);
  }

  lemma LowerHalf()
    ensures LeftOf(ThreeKeys().keyOf, Image(), 5, AfterSplit().blocks)
  {
    ImageKeys();
    hide KeysOf;
    var keyOf, image, lower := ThreeKeys().keyOf, Image(), AfterSplit().blocks;
    assert lower[0] == image[0].(locked := false);
    assert HasKey(keyOf, lower, 3);
  }

  /** A run from the first, empty leaf with one split: the redrawn slot 1 held a used block, so the draw
      may give back the free block of an earlier moment, and the insert that read it then lands: key 9
      sits in a leaf whose fence ends at 5. */
  lemma OneSplitSuffices() returns (run: seq<State>, steps: seq<Step>)
    ensures Run(run, steps) && |steps| >= 2 && (forall i :: 0 <= i < |run[0].blocks| ==> run[0].blocks[i].free)
    ensures forall i :: 0 <= i < |steps| ==> (steps[i].WriteLeaf? <==> i == |steps| - 2)
    ensures run[|steps|].hi == 5 && Shows(run[|steps|], 1, 9) && !InFence(run[|steps|])
  {
    hide Next, Init, FirstLeaf;
    run, steps := UpToTheSplit();
    var s := AfterSplit();
    LastCas();
    FirstStarts();
    assert |s.blocks| == 4;
    hide AfterSplit, InFence, Landed, Shows;
    Join(run, steps, [s, Landed(s, 0, 9, 109, 1)], [Cas(0)]);
    run, steps := run + [s, Landed(s, 0, 9, 109, 1)][1..], steps + [Cas(0)];
  }

  lemma FirstStarts()
    ensures Init(FirstLeaf()) && forall i :: 0 <= i < |FirstLeaf().blocks| ==> FirstLeaf().blocks[i].free
  {
  }

  lemma UpToTheSplit() returns (run: seq<State>, steps: seq<Step>)
    ensures Path(run, steps) && run[0] == FirstLeaf() && run[|steps|] == AfterSplit() && steps != []
    ensures forall i :: 0 <= i < |steps| ==> (steps[i].WriteLeaf? <==> i == |steps| - 1)
  {
    hide Next, AfterSplit, FirstLeaf, FrozenLeaf;
    assert At(ThreeKeys(), 1, Idle) && AllUnlocked(ThreeKeys().blocks) && !ThreeKeys().lock
      && |ThreeKeys().blocks| == 4;
    hide ThreeKeys, Locking, AllUnlocked, At;
    LockedIsFrozen();
    run, steps := FillSteps();
    var r, q := LockSteps(ThreeKeys(), 1, 4);
    Join(run, steps, r, q);
    run, steps := run + r[1..], steps + q;
    r, q := SplitSteps();
    Join(run, steps, r, q);
    run, steps := run + r[1..], steps + q;
  }

  lemma LastCas()
    ensures var s := AfterSplit(); var g := Landed(s, 0, 9, 109, 1);
      Next(s, Cas(0), g) && g.hi == 5 && Shows(g, 1, 9) && !InFence(g)
  {
    var g := Landed(AfterSplit(), 0, 9, 109, 1);
    assert Shows(g, 1, 9);
  }

  // ---- Every leaf born of a split ---------------------------------------------------------------------

  /** The item that the half shows for one of its keys. */
  ghost function ItemFor(keyOf: map<Addr, Key>, blocks: seq<Block>, k: Key): Addr
    requires HasKey(keyOf, blocks, k)
  {
    var i :| 0 <= i < |blocks| && !blocks[i].free && blocks[i].addr in keyOf && keyOf[blocks[i].addr] == k;
    blocks[i].addr
  }

  ghost function Shown(blocks: seq<Block>): set<Addr> {
    set i | 0 <= i < |blocks| && !blocks[i].free :: blocks[i].addr
  }

  ghost function NewLeaf(s: State, mid: Key, blocks: seq<Block>, pcs: map<Thread, Pc>): State {
    State(false, mid, s.hi, blocks, s.keyOf, Shown(blocks),
          map k | k in KeysOf(s.keyOf, blocks) && HasKey(s.keyOf, blocks, k) :: ItemFor(s.keyOf, blocks, k), [], pcs)
  }

  /** The threads at the new leaf: idle ones, and those that come over from the old leaf with the item
      they have written. */
  ghost predicate ComeOver(s: State, pcs: map<Thread, Pc>) {
    forall t :: t in pcs ==>
      pcs[t] == Idle || (t in s.pcs && s.pcs[t].Writer() && pcs[t] == Holding(s.pcs[t].key, s.pcs[t].addr))
  }

  /** The leaf that a split writes to the right is in its turn the start of a run, also for the inserts
      that raced the split and try again there: all of these theorems hold for it. */
  lemma SiblingStartsARun(s: State, step: Step, s': State, pcs: map<Thread, Pc>)
    requires Inv(s) && InFence(s) && Next(s, step, s') && step.WriteSibling? && ComeOver(s, pcs)
    ensures Init(NewLeaf(s, step.mid, step.blocks, pcs))
  {
    assert Writers(s);
    hide Inv, Next;
    SiblingFacts(s, step, s');
    hide InFence, ComeOver, Writers;
    RightStarts(s, step.mid, step.blocks, pcs);
  }

  lemma SiblingFacts(s: State, step: Step, s': State)
    requires Inv(s) && InFence(s) && Next(s, step, s') && step.WriteSibling?
    ensures RightOf(s.keyOf, s.blocks, step.mid, step.blocks) && s.lo < step.mid < s.hi
    ensures forall i :: 0 <= i < |s.blocks| && !s.blocks[i].free ==> s.blocks[i].addr in s.acked
  {
    hide OneSplitter, Writers, HasKey, HalfOf;
    assert FreezeOk(s, s.pcs[step.t]);
  }

  lemma RightStarts(s: State, mid: Key, blocks: seq<Block>, pcs: map<Thread, Pc>)
    requires InFence(s) && RightOf(s.keyOf, s.blocks, mid, blocks) && s.lo < mid < s.hi && Writers(s)
      && ComeOver(s, pcs)
    requires forall i :: 0 <= i < |s.blocks| && !s.blocks[i].free ==> s.blocks[i].addr in s.acked
    ensures Init(NewLeaf(s, mid, blocks, pcs))
  {
    var g := NewLeaf(s, mid, blocks, pcs);
    assert AllUnlocked(blocks);
    RightWriters(s, mid, blocks, pcs);
    hide InFence, HalfOf, HasKey, KeysOf, ItemFor, AllUnlocked, Writers;
    forall i: nat | i < |blocks| && !blocks[i].free
      ensures StartsOk(g, blocks[i].addr) && HasKey(s.keyOf, blocks, s.keyOf[blocks[i].addr])
    {
      SiblingBlock(s, mid, blocks, pcs, i);
    }
    assert forall a :: a in g.acked ==> exists i: nat :: i < |blocks| && !blocks[i].free && blocks[i].addr == a;
  }

  /** An item that is not acknowledged is in no leaf. */
  lemma RightWriters(s: State, mid: Key, blocks: seq<Block>, pcs: map<Thread, Pc>)
    requires RightOf(s.keyOf, s.blocks, mid, blocks) && Writers(s) && ComeOver(s, pcs)
    requires forall i :: 0 <= i < |s.blocks| && !s.blocks[i].free ==> s.blocks[i].addr in s.acked
    ensures Writers(NewLeaf(s, mid, blocks, pcs))
  {
    var g := NewLeaf(s, mid, blocks, pcs);
    forall i: nat | i < |blocks| && !blocks[i].free
      ensures blocks[i].addr in s.acked
    {
      assert IsCopy(s.keyOf, s.blocks, mid, true, blocks[i]);
    }
    hide HalfOf, KeysOf, HasKey, ItemFor;
    assert forall a :: a in g.acked ==> a in s.acked;
    forall t | t in pcs
      ensures PcOk(g, pcs[t])
    {
      assert t in s.pcs ==> PcOk(s, s.pcs[t]);
    }
  }

  lemma SiblingBlock(s: State, mid: Key, blocks: seq<Block>, pcs: map<Thread, Pc>, i: nat)
    requires InFence(s) && RightOf(s.keyOf, s.blocks, mid, blocks) && i < |blocks| && !blocks[i].free
    ensures blocks[i].addr in s.keyOf && HasKey(s.keyOf, blocks, s.keyOf[blocks[i].addr])
    ensures StartsOk(NewLeaf(s, mid, blocks, pcs), blocks[i].addr)
  {
    assert IsCopy(s.keyOf, s.blocks, mid, true, blocks[i]);
    var j :| 0 <= j < |s.blocks| && blocks[i] == s.blocks[j].(locked := false);
    assert !s.blocks[j].free;
    var k := s.keyOf[blocks[i].addr];
    assert HasKey(s.keyOf, blocks, k) && k in KeysOf(s.keyOf, blocks);
    OneItem(s.keyOf, s.blocks, mid, blocks, i);
  }

  /** A half has one item for each key. */
  lemma OneItem(keyOf: map<Addr, Key>, image: seq<Block>, mid: Key, blocks: seq<Block>, i: nat)
    requires RightOf(keyOf, image, mid, blocks) && i < |blocks| && !blocks[i].free && blocks[i].addr in keyOf
    ensures HasKey(keyOf, blocks, keyOf[blocks[i].addr])
      && ItemFor(keyOf, blocks, keyOf[blocks[i].addr]) == blocks[i].addr
  {
    var k := keyOf[blocks[i].addr];
    assert HasKey(keyOf, blocks, k);
    var a := ItemFor(keyOf, blocks, k);
    var x :| 0 <= x < |blocks| && !blocks[x].free && blocks[x].addr in keyOf && keyOf[blocks[x].addr] == k
      && a == blocks[x].addr;
  }

  // ---- The images of a leaf split -----------------------------------------------------------------------

  /** The keys of the items of the tree. */
  function KeyMap(items: map<Addr, Item>): map<Addr, Key> {
    map a | a in items :: items[a].key
  }

  /** What the leaf split of one client builds from the sorted entries are the two halves that the steps
      here write. */
  lemma SplitWritesHalves(items: map<Addr, Item>, n: Node, es: seq<Entry>, l: Node, r: Node)
    requires n.Leaf? && l.Leaf? && r.Leaf? && Gathered(items, n, |n.blocks|, es) && es != []
    requires |l.blocks| == |r.blocks| == |n.blocks| && AllUnlocked(l.blocks) && AllUnlocked(r.blocks)
    requires PartOf(es, 0, |es| / 2, l) && PartOf(es, |es| / 2, |es|, r)
    requires forall j :: 0 <= j < |l.blocks| && l.blocks[j].free ==> l.blocks[j].addr != n.blocks[j].addr
    ensures LeftOf(KeyMap(items), n.blocks, es[|es| / 2].key, l.blocks)
    ensures RightOf(KeyMap(items), n.blocks, es[|es| / 2].key, r.blocks)
  {
    var mid := |es| / 2;
    assert Sorted(es);
    hide Gathered, PartOf, AllUnlocked, HalfOf, KeyMap, Sorted;
    Sides(es, mid);
    PartIsHalf(items, n, es, 0, mid, l, es[mid].key, false);
    PartIsHalf(items, n, es, mid, |es|, r, es[mid].key, true);
  }

  lemma Sides(es: seq<Entry>, mid: nat)
    requires Sorted(es) && mid < |es|
    ensures forall j :: 0 <= j < |es| ==> (OnSide(es[j].key, es[mid].key, false) <==> 0 <= j < mid)
    ensures forall j :: 0 <= j < |es| ==> (OnSide(es[j].key, es[mid].key, true) <==> mid <= j < |es|)
  {
    forall j | 0 <= j < |es|
      ensures es[j].key < es[mid].key <==> j < mid
    {
      assert j < mid ==> es[j].key < es[mid].key;
      assert mid < j ==> es[mid].key < es[j].key;
    }
  }

  lemma PartIsHalf(items: map<Addr, Item>, n: Node, es: seq<Entry>, from: nat, to: nat, l: Node, mid: Key, right: bool)
    requires n.Leaf? && Gathered(items, n, |n.blocks|, es) && PartOf(es, from, to, l) && |l.blocks| == |n.blocks|
      && AllUnlocked(l.blocks)
    requires forall j :: 0 <= j < |es| ==> (OnSide(es[j].key, mid, right) <==> from <= j < to)
    ensures HalfOf(KeyMap(items), n.blocks, mid, right, l.blocks)
  {
    var keyOf := KeyMap(items);
    PartHolds(items, n, es, from, to, l);
    forall i | 0 <= i < |l.blocks| && !l.blocks[i].free
      ensures i < to - from && l.blocks[i].addr in keyOf && keyOf[l.blocks[i].addr] == es[from + i].key
      ensures IsCopy(keyOf, n.blocks, mid, right, l.blocks[i])
    {
      assert Holds(items, l, (from + i) - from, es[from + i].key);
      assert FromBlock(items, n, |n.blocks|, es[from + i]);
    }
    forall k | k in KeysOf(keyOf, n.blocks) && OnSide(k, mid, right)
      ensures HasKey(keyOf, l.blocks, k)
    {
      var i: nat :| i < |n.blocks| && !n.blocks[i].free && n.blocks[i].addr in keyOf && keyOf[n.blocks[i].addr] == k;
      assert Holds(items, n, i, k) && EntryFor(es, k);
      var j :| 0 <= j < |es| && es[j].key == k;
      assert Holds(items, l, j - from, k);
      assert !l.blocks[j - from].free && l.blocks[j - from].addr in keyOf;
    }
  }
}
