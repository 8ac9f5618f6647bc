/** The node locks of structure changes: a step system of any number of splitters.  A splitter
    locks a leaf, then, level by level, the nodes that take the separators, and releases them from
    the top down when the change is complete. */
module SplitLocks {

  type Thread = nat
  type Addr = nat

  /** `held` are the nodes a splitter has locked, from its leaf upwards. */
  datatype Pc =
    | Off
    | Seek(held: seq<Addr>)                  // looks for the node one level above
    | Try(held: seq<Addr>, node: Addr)       // found it; the lock CAS is next
    | Took(held: seq<Addr>, node: Addr)      // CAS succeeded; the node read is next
    | In(held: seq<Addr>, image: int)        // inside the last held node, with its image: the lock word read
    | Unwind(held: seq<Addr>)                // releases the held nodes, last first
  {
    function Locked(): seq<Addr> {
      match this
      case Off => []
      case Seek(held) => held
      case Try(held, _) => held
      case Took(held, node) => held + [node]
      case In(held, _) => held
      case Unwind(held) => held
    }
  }

  datatype State = State(levels: map<Addr, nat>, words: map<Addr, int>, pcs: map<Thread, Pc>)

  datatype Step =
    | TryLeaf(t: Thread, node: Addr)         // CAS on the lock word of a leaf; a failure ends the splitter
    | Find(t: Thread, node: Addr)            // the search returns a node of the wanted level
    | Cas(t: Thread)                         // CAS on its lock word; a failure starts the search again
    | Read(t: Thread)                        // reads the whole node, lock word included
    | Retreat(t: Thread)                     // the fence does not cover the separator: release, search again
    | NewNode(t: Thread, node: Addr)         // writes a new right sibling of the node
    | Write(t: Thread, split: bool)          // writes the whole node back, lock word included
    | Skip(t: Thread)                        // nothing to write: a leaf with too few entries
    | NewRoot(t: Thread, node: Addr)         // no such level: writes a new root
    | Release(t: Thread)                     // fetch-and-add of -1 on the last held lock word
    | Finish(t: Thread)

  function Goto(s: State, t: Thread, pc: Pc): State {
    s.(pcs := s.pcs[t := pc])
  }

  ghost predicate Next(s: State, step: Step, s': State) {
    && step.t in s.pcs
    && var pc := s.pcs[step.t];
    match step
    case TryLeaf(t, a) =>
      && pc.Off? && a in s.levels && a in s.words && s.levels[a] == 0
      && s' == if s.words[a] == 0 then Goto(s, t, Took([], a)).(words := s.words[a := 1]) else s
    case Find(t, a) =>
      && pc.Seek? && a in s.levels && s.levels[a] == |pc.held|
      && s' == Goto(s, t, Try(pc.held, a))
    case Cas(t) =>
      && pc.Try? && pc.node in s.words
      && s' == if s.words[pc.node] == 0 then Goto(s, t, Took(pc.held, pc.node)).(words := s.words[pc.node := 1])
               else Goto(s, t, Seek(pc.held))
    case Read(t) =>
      && pc.Took? && pc.node in s.words
      && s' == Goto(s, t, In(pc.held + [pc.node], s.words[pc.node]))
    case Retreat(t) =>
      && pc.In? && |pc.held| >= 2
      && var rest, a := pc.held[..|pc.held| - 1], pc.held[|pc.held| - 1];
      && a in s.words
      && s' == Goto(s, t, Seek(rest)).(words := s.words[a := s.words[a] - 1])
    case NewNode(t, a) =>
      && pc.In? && pc.held != [] && a !in s.levels && a !in s.words
      && pc.held[|pc.held| - 1] in s.levels
      && s' == s.(levels := s.levels[a := s.levels[pc.held[|pc.held| - 1]]], words := s.words[a := 0])
    case Write(t, split) =>
      && pc.In? && pc.held != []
      && var a := pc.held[|pc.held| - 1];
      s' == Goto(s, t, if split then Seek(pc.held) else Unwind(pc.held)).(words := s.words[a := pc.image])
    case Skip(t) =>
      pc.In? && s' == Goto(s, t, Unwind(pc.held))
    case NewRoot(t, a) =>
      && pc.Seek? && a !in s.levels && a !in s.words
      && s' == Goto(s, t, Unwind(pc.held)).(levels := s.levels[a := |pc.held|], words := s.words[a := 0])
    case Release(t) =>
      && pc.Unwind? && pc.held != []
      && var rest, a := pc.held[..|pc.held| - 1], pc.held[|pc.held| - 1];
      && a in s.words
      && s' == Goto(s, t, Unwind(rest)).(words := s.words[a := s.words[a] - 1])
    case Finish(t) =>
      pc == Unwind([]) && s' == Goto(s, t, Off)
  }

  ghost predicate Init(s: State) {
    && s.levels.Keys == s.words.Keys
    && (forall a :: a in s.words ==> s.words[a] == 0)
    && forall t :: t in s.pcs ==> s.pcs[t] == Off
  }

  // ---- The invariant ------------------------------------------------------------------------

  /** A splitter holds one node of each level from 0 up, and an image it will write says "locked". */
  ghost predicate PcOk(s: State, pc: Pc) {
    && (forall i :: 0 <= i < |pc.Locked()| ==> pc.Locked()[i] in s.levels && s.levels[pc.Locked()[i]] == i)
    && (pc.In? ==> pc.held != [] && pc.image == 1)
    && (pc.Try? ==> pc.node in s.levels && s.levels[pc.node] == |pc.held|)
  }

  ghost predicate HeldBy(s: State, t: Thread, a: Addr) {
    t in s.pcs && a in s.pcs[t].Locked()
  }

  ghost predicate SomeHolder(s: State, a: Addr) {
    exists t :: HeldBy(s, t, a)
  }

  /** A lock word is 1 exactly while a thread is inside the critical section of its node, and 0
      otherwise; no two threads are inside at once. */
  ghost predicate Words(s: State) {
    && s.levels.Keys == s.words.Keys
    && (forall a :: a in s.words ==> s.words[a] == if SomeHolder(s, a) then 1 else 0)
    && (forall t, u, a :: HeldBy(s, t, a) && HeldBy(s, u, a) ==> t == u)
  }

  ghost predicate Inv(s: State) {
    Words(s) && forall t :: t in s.pcs ==> PcOk(s, s.pcs[t])
  }

  lemma InitInv(s: State)
    requires Init(s)
    ensures Inv(s)
  {
  }

  lemma PcsKept(s: State, step: Step, s': State)
    requires Inv(s) && Next(s, step, s')
    ensures forall t :: t in s'.pcs ==> PcOk(s', s'.pcs[t])
  {
    LevelsStay(s, step, s');
    OwnPcKept(s, step, s');
    forall t | t in s'.pcs && t != step.t
      ensures PcOk(s', s'.pcs[t])
    {
      assert t in s.pcs && PcOk(s, s.pcs[t]) && s'.pcs[t] == s.pcs[t];
    }
  }

  lemma LevelsStay(s: State, step: Step, s': State)
    requires Next(s, step, s')
    ensures forall a :: a in s.levels ==> a in s'.levels && s'.levels[a] == s.levels[a]
    ensures s'.pcs.Keys == s.pcs.Keys && forall t :: t in s.pcs && t != step.t ==> s'.pcs[t] == s.pcs[t]
  {
  }

  lemma OwnPcKept(s: State, step: Step, s': State)
    requires Inv(s) && Next(s, step, s')
    ensures step.t in s'.pcs && PcOk(s', s'.pcs[step.t])
  {
    LevelsStay(s, step, s');
    var pc, pc' := s.pcs[step.t], s'.pcs[step.t];
    assert PcOk(s, pc);
    assert step.Read? ==> HeldBy(s, step.t, pc.node);
    assert forall i :: 0 <= i < |pc'.Locked()| && i < |pc.Locked()| ==> pc'.Locked()[i] == pc.Locked()[i];
    assert |pc'.Locked()| <= |pc.Locked()| + 1;
  }

  // ---- Lock words --------------------------------------------------------------------------------

  ghost predicate SameHolders(s: State, s': State) {
    forall t, a :: HeldBy(s', t, a) <==> HeldBy(s, t, a)
  }

  /** Steps that lock or release nothing. */
  lemma QuietStep(s: State, step: Step, s': State)
    requires Inv(s) && Next(s, step, s')
    requires s'.words == s.words || step.Write? || step.NewNode? || step.NewRoot?
    ensures SameHolders(s, s')
  {
    assert PcOk(s, s.pcs[step.t]);
    var pc, pc' := s.pcs[step.t], s'.pcs[step.t];
    assert pc'.Locked() == pc.Locked();
  }

  lemma SameHoldersKeepWords(s: State, step: Step, s': State)
    requires Inv(s) && Next(s, step, s') && SameHolders(s, s')
    requires s'.words == s.words || step.Write? || step.NewNode? || step.NewRoot?
    ensures Words(s')
  {
    assert forall a :: SomeHolder(s', a) <==> SomeHolder(s, a) by {
      forall a
        ensures SomeHolder(s', a) <==> SomeHolder(s, a)
      {
        if SomeHolder(s, a) { var t :| HeldBy(s, t, a); assert HeldBy(s', t, a); }
        if SomeHolder(s', a) { var t :| HeldBy(s', t, a); assert HeldBy(s, t, a); }
      }
    }
    var pc := s.pcs[step.t];
    assert PcOk(s, pc);
    if step.Write? {
      assert HeldBy(s, step.t, pc.held[|pc.held| - 1]);
    }
    if step.NewNode? || step.NewRoot? {
      UnknownIsFree(s, step.node);
    }
  }

  lemma UnknownIsFree(s: State, a: Addr)
    requires Inv(s) && a !in s.levels
    ensures !SomeHolder(s, a)
  {
    forall t | t in s.pcs
      ensures !HeldBy(s, t, a)
    {
      assert PcOk(s, s.pcs[t]);
    }
  }

  /** A CAS that succeeds: the thread becomes the only holder. */
  lemma LockStep(s: State, step: Step, s': State, a: Addr)
    requires Inv(s) && Next(s, step, s') && a in s.words && s.words[a] == 0
    requires (step.TryLeaf? && step.node == a) || (step.Cas? && s.pcs[step.t].node == a)
    ensures Words(s')
  {
    var t := step.t;
    assert s'.pcs[t].Locked() == s.pcs[t].Locked() + [a];
    assert HeldBy(s', t, a);
    forall u, b
      ensures HeldBy(s', u, b) <==> HeldBy(s, u, b) || (u == t && b == a)
    {
    }
    assert !SomeHolder(s, a);
    forall b | b != a
      ensures SomeHolder(s', b) <==> SomeHolder(s, b)
    {
      if SomeHolder(s, b) { var u :| HeldBy(s, u, b); assert HeldBy(s', u, b); }
      if SomeHolder(s', b) { var u :| HeldBy(s', u, b); assert HeldBy(s, u, b); }
    }
  }

  /** A release: the word goes from 1 to 0 and nobody holds the node. */
  lemma ReleaseStep(s: State, step: Step, s': State)
    requires Inv(s) && Next(s, step, s') && (step.Release? || step.Retreat?)
    ensures Words(s')
  {
    var t := step.t;
    var held := s.pcs[t].held;
    var rest, a := held[..|held| - 1], held[|held| - 1];
    assert PcOk(s, s.pcs[t]);
    assert s.pcs[t].Locked() == held && s'.pcs[t].Locked() == rest;
    assert a !in rest by {
      forall i | 0 <= i < |rest|
        ensures rest[i] != a
      {
        assert rest[i] == held[i];
      }
    }
    assert HeldBy(s, t, a);
    forall u, b
      ensures HeldBy(s', u, b) <==> HeldBy(s, u, b) && !(u == t && b == a)
    {
      if u == t && b in held && b != a {
        var i :| 0 <= i < |held| && held[i] == b;
        assert rest[i] == b;
      }
    }
    assert !SomeHolder(s', a);
    forall b | b != a
      ensures SomeHolder(s', b) <==> SomeHolder(s, b)
    {
      if SomeHolder(s, b) { var u :| HeldBy(s, u, b); assert HeldBy(s', u, b); }
      if SomeHolder(s', b) { var u :| HeldBy(s', u, b); assert HeldBy(s, u, b); }
    }
  }

  lemma NextKeepsInv(s: State, step: Step, s': State)
    requires Inv(s) && Next(s, step, s')
    ensures Inv(s')
  {
    PcsKept(s, step, s');
    if step.Release? || step.Retreat? {
      ReleaseStep(s, step, s');
    } else if step.TryLeaf? && s.words[step.node] == 0 {
      LockStep(s, step, s', step.node);
    } else if step.Cas? && s.words[s.pcs[step.t].node] == 0 {
      LockStep(s, step, s', s.pcs[step.t].node);
    } else {
      QuietStep(s, step, s');
      SameHoldersKeepWords(s, step, s');
    }
  }

  // ---- Whole runs ------------------------------------------------------------------------------------

  ghost predicate Run(run: seq<State>, steps: seq<Step>) {
    && |run| == |steps| + 1 && Init(run[0])
    && forall i :: 0 <= i < |steps| ==> Next(run[i], steps[i], run[i + 1])
  }

  /** In every run, at every moment: a lock word is 0 or 1, and 1 exactly while one thread is inside
      the critical section of the node; writing back a whole node never clears or sets it. */
  lemma {:induction false} RunInv(run: seq<State>, steps: seq<Step>, i: nat)
    requires Run(run, steps) && i < |run|
    ensures Inv(run[i])
  {
    hide Inv, Next, Init;
    if i == 0 {
      InitInv(run[0]);
    } else {
      RunInv(run, steps, i - 1);
      NextKeepsInv(run[i - 1], steps[i - 1], run[i]);
    }
  }

  lemma WritesKeepLockWord(run: seq<State>, steps: seq<Step>, i: nat)
    requires Run(run, steps) && i < |steps| && steps[i].Write?
    ensures run[i + 1].words == run[i].words
  {
    RunInv(run, steps, i);
    var s := run[i];
    assert Next(s, steps[i], run[i + 1]);
    var pc := s.pcs[steps[i].t];
    assert PcOk(s, pc);
    assert HeldBy(s, steps[i].t, pc.held[|pc.held| - 1]);
  }

  // ---- Progress ---------------------------------------------------------------------------------------

  ghost predicate Unfinished(s: State, t: Thread) {
    t in s.pcs && s.pcs[t] != Off
  }

  /** What a splitter may wait for are lock words of nodes on levels above all it holds. */
  ghost predicate MayWaitFor(s: State, t: Thread, a: Addr) {
    t in s.pcs && a in s.levels && a in s.words && s.levels[a] >= |s.pcs[t].Locked()| && s.words[a] != 0
  }

  lemma WaitsAbove(s: State, t: Thread)
    requires Inv(s) && t in s.pcs && s.pcs[t].Try?
    ensures forall i :: 0 <= i < |s.pcs[t].held| ==>
      s.pcs[t].held[i] in s.levels && s.pcs[t].node in s.levels && s.levels[s.pcs[t].held[i]] < s.levels[s.pcs[t].node]
  {
    assert PcOk(s, s.pcs[t]);
    assert s.pcs[t].Locked() == s.pcs[t].held;
  }

  /** Among finitely many splitters one holds the most nodes. */
  lemma {:induction false} Highest(s: State, ts: set<Thread>) returns (t: Thread)
    requires ts != {} && ts <= s.pcs.Keys
    ensures t in ts && forall u :: u in ts ==> |s.pcs[u].Locked()| <= |s.pcs[t].Locked()|
  {
    t :| t in ts;
    if ts != {t} {
      var u := Highest(s, ts - {t});
      assert forall v :: v in ts ==> v == t || v in ts - {t};
      if |s.pcs[u].Locked()| > |s.pcs[t].Locked()| {
        t := u;
      }
    }
  }

  /** No deadlock: while a splitter is unfinished, some unfinished splitter has nothing to wait for.
      Every lock on a level it may go to is free. */
  lemma SomeSplitterIsFree(run: seq<State>, steps: seq<Step>, i: nat, t0: Thread) returns (t: Thread)
    requires Run(run, steps) && i < |run| && Unfinished(run[i], t0)
    ensures Unfinished(run[i], t)
    ensures forall a :: !MayWaitFor(run[i], t, a)
  {
    RunInv(run, steps, i);
    var s := run[i];
    var ts := set u | u in s.pcs && s.pcs[u] != Off;
    assert t0 in ts;
    t := Highest(s, ts);
    forall a | a in s.levels && a in s.words && s.levels[a] >= |s.pcs[t].Locked()|
      ensures s.words[a] == 0
    {
      forall u | u in s.pcs
        ensures !HeldBy(s, u, a)
      {
        assert PcOk(s, s.pcs[u]);
        assert |s.pcs[u].Locked()| > 0 ==> u in ts;
      }
    }
  }
}
