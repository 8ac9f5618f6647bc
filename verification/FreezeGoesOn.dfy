/** The threads at one leaf never stand still: what each of them can do next, and what the splitter
    decides. */
module FreezeGoesOn {
  import opened Bits
  import opened FaunusNodes
  import opened LeafFreeze
  import opened LeafFence

  /** Block `i` is the last used one with its key, and its key is on the side. */
  predicate Stays(keyOf: map<Addr, Key>, image: seq<Block>, mid: Key, right: bool, i: nat)
    requires i < |image|
  {
    && !image[i].free && image[i].addr in keyOf && OnSide(keyOf[image[i].addr], mid, right)
    && forall j :: i < j < |image| && !image[j].free && image[j].addr in keyOf ==>
         keyOf[image[j].addr] != keyOf[image[i].addr]
  }

  /** One half, every block in its place. */
  function Half(keyOf: map<Addr, Key>, image: seq<Block>, mid: Key, right: bool): seq<Block> {
    seq(|image|, i requires 0 <= i < |image| =>
      if Stays(keyOf, image, mid, right, i) then image[i].(locked := false)
      else Block(0, image[i].addr + 1, true, false))
  }

  lemma {:induction false} LastBlock(keyOf: map<Addr, Key>, image: seq<Block>, k: Key, i: nat) returns (j: nat)
    requires i < |image| && !image[i].free && image[i].addr in keyOf && keyOf[image[i].addr] == k
    ensures i <= j < |image| && !image[j].free && image[j].addr in keyOf && keyOf[image[j].addr] == k
    ensures forall x :: j < x < |image| && !image[x].free && image[x].addr in keyOf ==> keyOf[image[x].addr] != k
    decreases |image| - i
  {
    if x: nat :| i < x < |image| && !image[x].free && image[x].addr in keyOf && keyOf[image[x].addr] == k {
      j := LastBlock(keyOf, image, k, x);
    } else {
      j := i;
    }
  }

  lemma HalfIsHalf(keyOf: map<Addr, Key>, image: seq<Block>, mid: Key, right: bool)
    ensures HalfOf(keyOf, image, mid, right, Half(keyOf, image, mid, right))
    ensures !right ==> LeftOf(keyOf, image, mid, Half(keyOf, image, mid, right))
  {
    var half := Half(keyOf, image, mid, right);
    forall j | 0 <= j < |half| && !half[j].free
      ensures IsCopy(keyOf, image, mid, right, half[j])
    {
      assert Stays(keyOf, image, mid, right, j);
    }
    forall k | k in KeysOf(keyOf, image) && OnSide(k, mid, right)
      ensures HasKey(keyOf, half, k)
    {
      var i :| 0 <= i < |image| && !image[i].free && image[i].addr in keyOf && keyOf[image[i].addr] == k;
      var j := LastBlock(keyOf, image, k, i);
      assert Stays(keyOf, image, mid, right, j);
      assert half[j] == image[j].(locked := false);
      assert !half[j].free && half[j].addr in keyOf && keyOf[half[j].addr] == k;
    }
    forall i, j | 0 <= i < j < |half| && !half[i].free && !half[j].free
      ensures keyOf[half[i].addr] != keyOf[half[j].addr]
    {
      assert Stays(keyOf, image, mid, right, i) && Stays(keyOf, image, mid, right, j);
    }
  }

  lemma MiddleKey(keys: set<Key>, lo: Key, hi: Key) returns (mid: Key)
    requires |keys| >= 2 && forall k :: k in keys ==> lo <= k < hi
    ensures lo < mid < hi
  {
    var k :| k in keys;
    assert |keys - {k}| == |keys| - 1;
    var u :| u in keys - {k};
    mid := if k < u then u else k;
  }

  ghost predicate Moves(s: State, t: Thread, step: Step, s': State) {
    Next(s, step, s') && step.t == t && t in s.pcs && t in s'.pcs && s'.pcs[t] != s.pcs[t]
  }

  // ---- The splitter ---------------------------------------------------------------------------------

  lemma KnowsSplitter(s: State, t: Thread)
    requires Inv(s) && t in s.pcs
    ensures var pc := s.pcs[t];
      && (pc.Freezing? || pc.Thawing? ==> pc.n <= |s.blocks|)
      && (pc.Frozen? || pc.Sharing? ==> pc.image == s.blocks)
      && (pc.Armed? ==> pc.slot < |s.blocks|)
      && (!s.lock ==> AllUnlocked(s.blocks))
  {
    assert FreezeOk(s, s.pcs[t]) && PcOk(s, s.pcs[t]);
  }

  lemma FrozenMoves(s: State, t: Thread) returns (step: Step, s': State)
    requires t in s.pcs && s.pcs[t].Frozen? && s.pcs[t].image == s.blocks && InFence(s) && |s.blocks| >= 4
    ensures Moves(s, t, step, s')
  {
    var image := s.blocks;
    var keys := KeysOf(s.keyOf, image);
    if |keys| > |image| / 2 {
      assert forall k :: k in keys ==> s.lo <= k < s.hi;
      var mid := MiddleKey(keys, s.lo, s.hi);
      var right := Half(s.keyOf, image, mid, true);
      HalfIsHalf(s.keyOf, image, mid, true);
      hide HalfOf, Half;
      step := WriteSibling(t, mid, right);
      s' := Goto(s, t, Sharing(image, mid)).(rights := s.rights + [Right(mid, s.hi, right)]);
    } else {
      step, s' := StartThaw(t), Goto(s, t, Thawing(0));
    }
  }

  lemma SharingMoves(s: State, t: Thread) returns (step: Step, s': State)
    requires t in s.pcs && s.pcs[t].Sharing? && s.pcs[t].image == s.blocks
    ensures Moves(s, t, step, s')
  {
    var pc := s.pcs[t];
    var left := Half(s.keyOf, pc.image, pc.mid, false);
    HalfIsHalf(s.keyOf, pc.image, pc.mid, false);
    hide LeftOf, Half;
    step, s' := WriteLeaf(t, left), Goto(s, t, Linking).(blocks := left, hi := pc.mid);
  }

  lemma LockerMoves(s: State, t: Thread) returns (step: Step, s': State)
    requires t in s.pcs && (s.pcs[t].Freezing? || s.pcs[t].Thawing? || s.pcs[t].Linking?)
    requires !s.pcs[t].Linking? ==> s.pcs[t].n <= |s.blocks|
    ensures Moves(s, t, step, s')
  {
    match s.pcs[t]
    case Freezing(n) =>
      if n < |s.blocks| {
        step, s' := FaaLock(t), Goto(s, t, Freezing(n + 1)).(blocks := s.blocks[n := FaaUp(s.blocks[n])]);
      } else {
        step, s' := ReadImage(t), Goto(s, t, Frozen(s.blocks));
      }
    case Thawing(n) =>
      if n < |s.blocks| {
        step, s' := FaaUnlock(t), Goto(s, t, Thawing(n + 1)).(blocks := s.blocks[n := FaaDown(s.blocks[n])]);
      } else {
        step, s' := Release(t), Goto(s, t, Idle).(lock := false);
      }
    case Linking =>
      step, s' := Release(t), Goto(s, t, Idle).(lock := false);
  }

  /** As long as every key is in the fence, which `LeafFence.RunStaysInFence` says of runs without reuse, a
      splitter can always take its next step, up to the release of the leaf. */
  lemma SplitterMoves(run: seq<State>, steps: seq<Step>, i: nat, t: Thread) returns (step: Step, s': State)
    requires Run(run, steps) && i < |run| && InFence(run[i]) && |run[i].blocks| >= 4
    requires t in run[i].pcs && run[i].pcs[t].Splitter()
    ensures Moves(run[i], t, step, s')
  {
    RunInv(run, steps, i);
    hide Run, Inv, InFence, Moves;
    var s := run[i];
    KnowsSplitter(s, t);
    if s.pcs[t].Frozen? {
      step, s' := FrozenMoves(s, t);
    } else if s.pcs[t].Sharing? {
      step, s' := SharingMoves(s, t);
    } else {
      step, s' := LockerMoves(s, t);
    }
  }

  /** A splitter that has frozen the leaf cuts it exactly if more than half of the blocks have distinct keys;
      what it counts is what the leaf holds. */
  lemma SplitterDecides(run: seq<State>, steps: seq<Step>, i: nat)
    requires Run(run, steps) && i < |steps| && (steps[i].WriteSibling? || steps[i].StartThaw?)
    ensures steps[i].WriteSibling? <==> 2 * |KeysOf(run[i].keyOf, run[i].blocks)| > |run[i].blocks|
  {
    RunInv(run, steps, i);
    assert Next(run[i], steps[i], run[i + 1]);
    KnowsSplitter(run[i], steps[i].t);
    hide HalfOf, KeysOf;
  }

  // ---- Writers ----------------------------------------------------------------------------------------

  lemma SlotFor(s: State, k: Key) returns (i: nat)
    requires HasKey(s.keyOf, s.blocks, k) || exists j :: 0 <= j < |s.blocks| && s.blocks[j].free
    ensures i < |s.blocks|
    ensures if s.blocks[i].free then !HasKey(s.keyOf, s.blocks, k)
            else s.blocks[i].addr in s.keyOf && s.keyOf[s.blocks[i].addr] == k
  {
    if HasKey(s.keyOf, s.blocks, k) {
      i :| i < |s.blocks| && !s.blocks[i].free && s.blocks[i].addr in s.keyOf && s.keyOf[s.blocks[i].addr] == k;
    } else {
      i :| i < |s.blocks| && s.blocks[i].free;
    }
  }

  /** A writer with its item arms its CAS at any moment at which the leaf is not being split, covers the key,
      and has the key or a free block; the next CAS of an armed writer ends the write or starts it again. */
  lemma WriterMoves(run: seq<State>, steps: seq<Step>, i: nat, t: Thread) returns (step: Step, s': State)
    requires Run(run, steps) && i < |run| && t in run[i].pcs && run[i].pcs[t].Writer()
    requires run[i].pcs[t].Holding? ==>
      && !run[i].lock && run[i].lo <= run[i].pcs[t].key < run[i].hi
      && (HasKey(run[i].keyOf, run[i].blocks, run[i].pcs[t].key)
          || exists j :: 0 <= j < |run[i].blocks| && run[i].blocks[j].free)
    ensures Moves(run[i], t, step, s')
    ensures run[i].pcs[t].Armed? && run[i].blocks[run[i].pcs[t].slot] == run[i].pcs[t].expected ==>
      run[i].pcs[t].addr in s'.acked && s'.pcs[t].Idle?
  {
    var s := run[i];
    RunInv(run, steps, i);
    KnowsSplitter(s, t);
    hide Run, Inv, HasKey;
    var pc := s.pcs[t];
    if pc.Holding? {
      var j := SlotFor(s, pc.key);
      step, s' := ReadLeaf(t, j), Goto(s, t, Armed(pc.key, pc.addr, j, s.blocks[j]));
    } else {
      step := Cas(t);
      s' := if s.blocks[pc.slot] == pc.expected
            then Goto(s, t, Idle).(blocks := s.blocks[pc.slot := Block(Fp(pc.key), pc.addr, false, false)],
                                   acked := s.acked + {pc.addr}, latest := s.latest[pc.key := pc.addr])
            else Goto(s, t, Holding(pc.key, pc.addr));
    }
  }
}
