/** The local ticket lock with hand-over: a step system of any number of threads on one lock node,
    every atomic load, store and fetch-and-add being one step. */
module TicketLock {

  type Thread = nat

  const SLOTS := 1024
  const MAX_HAND_OVER := 8
  const TICKETS := 0x1_0000_0000

  datatype Pc =
    | Out
    | Wait(ticket: nat)                                    // ticket drawn
    | Turn(ticket: nat)                                    // has seen its ticket served
    | FlagRead(ticket: nat, handed: bool)                  // has read its hand-over flag
    | Hold(ticket: nat, saw: bool)                         // holds the lock; `saw`: can_hand_over was true
    | Check(ticket: nat, saw: bool, waiters: bool)         // inside can_hand_over
    | Decide(ticket: nat, saw: bool, waiters: bool)        // inside release: word loaded
    | Hand0(ticket: nat)                                   // will set the flag
    | Hand1(ticket: nat)                                   // flag set
    | Hand2(ticket: nat)                                   // count incremented
    | Pass0(ticket: nat)                                   // will reset the count
    | Pass1(ticket: nat)                                   // count reset
  {
    /** From drawing a ticket to the end of `acquire`. */
    predicate Entering() { Wait? || Turn? || FlagRead? }
  }

  /** `owner[k]` drew ticket `k`; `released[k]` and `acquired[k]` are what the release of ticket `k`
      and the acquire with ticket `k` returned. `remote` is the remote lock of one compute server: an
      acquire that is not handed over takes it, the page write after a refusal and a release without
      hand-over clear it; each is one step with the operation that decides it. */
  datatype State = State(next: nat, serving: nat, count: nat, flags: seq<bool>, pcs: map<Thread, Pc>,
                         owner: seq<Thread>, released: seq<bool>, acquired: seq<bool>, remote: bool)

  datatype Step =
    | Draw(t: Thread) | See(t: Thread) | ReadFlag(t: Thread) | ClearFlag(t: Thread)
    | CheckWord(t: Thread) | CheckCount(t: Thread)
    | LoadWord(t: Thread) | LoadCount(t: Thread)
    | SetFlag(t: Thread) | Increment(t: Thread) | HandOver(t: Thread)
    | Reset(t: Thread) | Pass(t: Thread)

  function Goto(s: State, t: Thread, pc: Pc): State {
    s.(pcs := s.pcs[t := pc])
  }

  ghost predicate Next(s: State, step: Step, s': State) {
    && step.t in s.pcs
    && var pc := s.pcs[step.t];
    match step
    case Draw(t) =>
      && pc.Out? && s.next + 1 < TICKETS
      && s' == Goto(s, t, Wait(s.next)).(next := s.next + 1, owner := s.owner + [t])
    case See(t) => pc.Wait? && pc.ticket == s.serving && s' == Goto(s, t, Turn(pc.ticket))
    case ReadFlag(t) =>
      && pc.Turn? && |s.flags| == SLOTS
      && s' == Goto(s, t, FlagRead(pc.ticket, s.flags[pc.ticket % SLOTS]))
    case ClearFlag(t) =>
      && pc.FlagRead? && |s.flags| == SLOTS
      && s' == Goto(s, t, Hold(pc.ticket, false)).(flags := s.flags[pc.ticket % SLOTS := false],
                                                   acquired := s.acquired + [pc.handed],
                                                   remote := s.remote || !pc.handed)
    case CheckWord(t) =>
      pc.Hold? && s' == Goto(s, t, Check(pc.ticket, pc.saw, s.next - s.serving - 1 > 0))
    case CheckCount(t) =>
      && pc.Check?
      && var can := pc.waiters && s.count < MAX_HAND_OVER;
      s' == Goto(s, t, Hold(pc.ticket, can)).(remote := s.remote && can)
    case LoadWord(t) =>
      pc.Hold? && s' == Goto(s, t, Decide(pc.ticket, pc.saw, s.next - s.serving - 1 > 0))
    case LoadCount(t) =>
      && pc.Decide?
      && s' == Goto(s, t, if pc.waiters && s.count < MAX_HAND_OVER then Hand0(pc.ticket) else Pass0(pc.ticket))
    case SetFlag(t) =>
      && pc.Hand0? && |s.flags| == SLOTS
      && s' == Goto(s, t, Hand1(pc.ticket)).(flags := s.flags[(s.serving + 1) % SLOTS := true])
    case Increment(t) => pc.Hand1? && s' == Goto(s, t, Hand2(pc.ticket)).(count := s.count + 1)
    case HandOver(t) =>
      pc.Hand2? && s' == Goto(s, t, Out).(serving := s.serving + 1, released := s.released + [true])
    case Reset(t) => pc.Pass0? && s' == Goto(s, t, Pass1(pc.ticket)).(count := 0)
    case Pass(t) =>
      && pc.Pass1?
      && s' == Goto(s, t, Out).(serving := s.serving + 1, released := s.released + [false], remote := false)
  }

  ghost predicate Init(s: State) {
    && s.next == s.serving == s.count == 0 && s.owner == [] && s.released == [] && s.acquired == [] && !s.remote
    && |s.flags| == SLOTS && (forall j :: 0 <= j < SLOTS ==> !s.flags[j])
    && forall t :: t in s.pcs ==> s.pcs[t] == Out
  }

  // ---- The invariant ------------------------------------------------------------------------

  /** The ticket `k` is outstanding, drawn by its owner. */
  ghost predicate Outstanding(s: State, k: nat) {
    && k < |s.owner| && s.owner[k] in s.pcs
    && !s.pcs[s.owner[k]].Out? && s.pcs[s.owner[k]].ticket == k
  }

  /** Outstanding tickets are exactly those from `serving` to `next`, one for each active thread, and
      only the thread whose ticket is served is past the wait. */
  ghost predicate Tickets(s: State) {
    && s.serving <= s.next < TICKETS && |s.owner| == s.next && |s.released| == s.serving
    && (forall k :: s.serving <= k < s.next ==> Outstanding(s, k))
    && (forall t :: t in s.pcs && !s.pcs[t].Out? ==>
          && s.serving <= s.pcs[t].ticket < s.next && s.owner[s.pcs[t].ticket] == t
          && (!s.pcs[t].Wait? ==> s.pcs[t].ticket == s.serving))
  }

  /** Where the thread whose ticket is served is. */
  ghost function Stage(s: State): Pc {
    if s.serving < |s.owner| && s.owner[s.serving] in s.pcs then s.pcs[s.owner[s.serving]] else Out
  }

  /** What the release of the ticket before `k` returned. */
  ghost predicate HandedTo(s: State, k: nat) {
    0 < k <= |s.released| && s.released[k - 1]
  }

  /** The flags: at most one is set, the one of the thread the lock is being handed to. */
  ghost predicate LitFlag(s: State, j: nat) {
    || (Stage(s).Entering() && HandedTo(s, s.serving) && j == s.serving % SLOTS)
    || ((Stage(s).Hand1? || Stage(s).Hand2?) && j == (s.serving + 1) % SLOTS)
  }

  ghost predicate Flags(s: State) {
    && |s.flags| == SLOTS && (forall j :: 0 <= j < SLOTS ==> (s.flags[j] <==> LitFlag(s, j)))
    && (s.serving == s.next ==> !HandedTo(s, s.serving))
    && (Stage(s).FlagRead? ==> (Stage(s).handed <==> HandedTo(s, s.serving)))
    && (Stage(s).Hand0? || Stage(s).Hand1? || Stage(s).Hand2? ==> s.serving + 1 < s.next)
    && (Stage(s).Decide? && Stage(s).waiters ==> s.serving + 1 < s.next)
    && (Stage(s).Check? && Stage(s).waiters ==> s.serving + 1 < s.next)
  }

  function Trailing(rs: seq<bool>): nat {
    if rs == [] || !rs[|rs| - 1] then 0 else 1 + Trailing(rs[..|rs| - 1])
  }

  /** The count is the number of hand-overs since the last release without one. */
  ghost predicate Counts(s: State) {
    && (s.count ==
        if Stage(s).Hand2? then Trailing(s.released) + 1
        else if Stage(s).Pass1? then 0 else Trailing(s.released))
    && (Stage(s).Hand0? || Stage(s).Hand1? ==> s.count < MAX_HAND_OVER)
    && (Stage(s).Hand2? ==> s.count <= MAX_HAND_OVER)
    && (forall n :: 0 <= n <= |s.released| ==> Trailing(s.released[..n]) <= MAX_HAND_OVER)
  }

  /** Once the holder has seen that it can hand over, it can until it does. */
  ghost predicate Promises(s: State) {
    var pc := Stage(s);
    && (pc.Hold? && pc.saw ==> s.serving + 1 < s.next && s.count < MAX_HAND_OVER)
    && (pc.Check? && pc.saw ==> pc.waiters && s.serving + 1 < s.next && s.count < MAX_HAND_OVER)
    && (pc.Decide? && pc.saw ==> pc.waiters && s.count < MAX_HAND_OVER)
  }

  /** Acquires return what the release before returned. */
  ghost predicate Acquires(s: State) {
    && |s.acquired| == (if Stage(s).Out? || Stage(s).Entering() then s.serving else s.serving + 1)
    && forall k :: 0 <= k < |s.acquired| ==> (s.acquired[k] <==> HandedTo(s, k))
  }

  ghost predicate Inv(s: State) {
    Tickets(s) && Flags(s) && Counts(s) && Promises(s) && Acquires(s)
  }

  lemma InitInv(s: State)
    requires Init(s)
    ensures Inv(s)
  {
    assert Trailing(s.released[..0]) == 0;
  }

  lemma OutstandingKept(s: State, step: Step, s': State, k: nat)
    requires Tickets(s) && Next(s, step, s') && s'.serving <= k < s'.next
    ensures Outstanding(s', k)
  {
    if k < s.next {
      assert Outstanding(s, k);
    }
  }

  lemma ActiveKept(s: State, step: Step, s': State, t: Thread)
    requires Tickets(s) && Next(s, step, s') && t in s'.pcs && !s'.pcs[t].Out?
    ensures s'.serving <= s'.pcs[t].ticket < s'.next == |s'.owner| && s'.owner[s'.pcs[t].ticket] == t
    ensures !s'.pcs[t].Wait? ==> s'.pcs[t].ticket == s'.serving
  {
    hide Outstanding;
  }

  lemma CountersKept(s: State, step: Step, s': State)
    requires Tickets(s) && Next(s, step, s')
    ensures s'.serving <= s'.next < TICKETS && |s'.owner| == s'.next && |s'.released| == s'.serving
  {
    hide Outstanding;
  }

  lemma TicketsKept(s: State, step: Step, s': State)
    requires Inv(s) && Next(s, step, s')
    ensures Tickets(s')
  {
    hide Flags, Counts, Promises, Acquires, Outstanding, Next;
    CountersKept(s, step, s');
    forall k | s'.serving <= k < s'.next
      ensures Outstanding(s', k)
    {
      OutstandingKept(s, step, s', k);
    }
    forall t | t in s'.pcs && !s'.pcs[t].Out?
      ensures s'.serving <= s'.pcs[t].ticket < s'.next == |s'.owner| && s'.owner[s'.pcs[t].ticket] == t
      ensures !s'.pcs[t].Wait? ==> s'.pcs[t].ticket == s'.serving
    {
      ActiveKept(s, step, s', t);
    }
  }

  /** Who takes the step, seen from the thread whose ticket is served. */
  lemma StageStep(s: State, step: Step, s': State)
    requires Inv(s) && Next(s, step, s')
    ensures step.Draw? || step.See? || Stage(s) == s.pcs[step.t]
    ensures step.See? ==> Stage(s) == s.pcs[step.t]
    ensures step.Draw? ==> Stage(s') == if s.serving == s.next then Wait(s.next) else Stage(s)
    ensures step.HandOver? || step.Pass? ==> Stage(s').Out? || Stage(s') == Wait(s'.serving)
    ensures (step.HandOver? || step.Pass?) && Stage(s').Out? ==> s'.serving == s'.next
    ensures !step.Draw? && !step.HandOver? && !step.Pass? ==> Stage(s') == s'.pcs[step.t]
    ensures Stage(s).Out? <==> s.serving == s.next
  {
    hide Flags, Counts, Promises, Acquires;
    if s.serving < s.next {
      assert Outstanding(s, s.serving);
    }
    if s.serving + 1 < s.next {
      assert Outstanding(s, s.serving + 1);
    }
  }

  lemma FlagsKept(s: State, step: Step, s': State)
    requires Inv(s) && Next(s, step, s')
    ensures Flags(s')
  {
    hide Counts, Promises, Acquires, Stage;
    StageStep(s, step, s');
    FlagBits(s, step, s');
    hide LitFlag;
  }

  /** The flags themselves, slot by slot. */
  lemma FlagBits(s: State, step: Step, s': State)
    requires Inv(s) && Next(s, step, s')
    ensures |s'.flags| == SLOTS && forall j :: 0 <= j < SLOTS ==> (s'.flags[j] <==> LitFlag(s', j))
  {
    hide Counts, Promises, Acquires, Stage;
    StageStep(s, step, s');
    assert s.serving % SLOTS != (s.serving + 1) % SLOTS;
    forall j: nat | j < SLOTS
      ensures s'.flags[j] <==> LitFlag(s', j)
    {
      assert s.flags[j] <==> LitFlag(s, j);
      FlagBit(s, step, s', j);
    }
  }

  lemma FlagBit(s: State, step: Step, s': State, j: nat)
    requires Inv(s) && Next(s, step, s') && j < SLOTS && |s.flags| == |s'.flags| == SLOTS
      && (s.flags[j] <==> LitFlag(s, j))
    requires s.serving % SLOTS != (s.serving + 1) % SLOTS
    ensures s'.flags[j] <==> LitFlag(s', j)
  {
    hide Counts, Promises, Acquires, Stage;
    StageStep(s, step, s');
  }

  lemma TrailingAppend(rs: seq<bool>, b: bool)
    ensures Trailing(rs + [b]) == if b then Trailing(rs) + 1 else 0
  {
    assert (rs + [b])[..|rs|] == rs;
  }

  lemma CountsKept(s: State, step: Step, s': State)
    requires Inv(s) && Next(s, step, s')
    ensures Counts(s')
  {
    hide Flags, Promises, Acquires, Stage, Tickets;
    TrailingKept(s, step, s');
    CountKept(s, step, s');
    hide Next, Trailing;
  }

  lemma CountKept(s: State, step: Step, s': State)
    requires Inv(s) && Next(s, step, s')
    ensures s'.count == if Stage(s').Hand2? then Trailing(s'.released) + 1
                        else if Stage(s').Pass1? then 0 else Trailing(s'.released)
    ensures Stage(s').Hand0? || Stage(s').Hand1? ==> s'.count < MAX_HAND_OVER
    ensures Stage(s').Hand2? ==> s'.count <= MAX_HAND_OVER
  {
    hide Flags, Promises, Acquires, Stage, Tickets, Trailing;
    StageStep(s, step, s');
    TrailingAppend(s.released, true);
    TrailingAppend(s.released, false);
  }

  lemma TrailingKept(s: State, step: Step, s': State)
    requires Inv(s) && Next(s, step, s')
    ensures forall n :: 0 <= n <= |s'.released| ==> Trailing(s'.released[..n]) <= MAX_HAND_OVER
  {
    hide Flags, Promises, Acquires, Stage, Tickets, Trailing;
    StageStep(s, step, s');
    TrailingAppend(s.released, true);
    TrailingAppend(s.released, false);
    assert s.released[..|s.released|] == s.released && s'.released[..|s'.released|] == s'.released;
    forall n | 0 <= n <= |s'.released|
      ensures Trailing(s'.released[..n]) <= MAX_HAND_OVER
    {
      if n <= |s.released| {
        assert s'.released[..n] == s.released[..n];
      }
    }
  }

  lemma PromisesKept(s: State, step: Step, s': State)
    requires Inv(s) && Next(s, step, s')
    ensures Promises(s')
  {
    hide Acquires, Stage;
    StageStep(s, step, s');
  }

  lemma AcquiresKept(s: State, step: Step, s': State)
    requires Inv(s) && Next(s, step, s')
    ensures Acquires(s')
  {
    hide Counts, Promises, Stage;
    StageStep(s, step, s');
  }

  lemma NextKeepsInv(s: State, step: Step, s': State)
    requires Inv(s) && Next(s, step, s')
    ensures Inv(s')
  {
    TicketsKept(s, step, s');
    FlagsKept(s, step, s');
    CountsKept(s, step, s');
    PromisesKept(s, step, s');
    AcquiresKept(s, step, s');
  }

  // ---- Whole runs -----------------------------------------------------------------------------

  ghost predicate Run(run: seq<State>, steps: seq<Step>) {
    && |run| == |steps| + 1 && Init(run[0])
    && forall i :: 0 <= i < |steps| ==> Next(run[i], steps[i], run[i + 1])
  }

  lemma {:induction false} RunInv(run: seq<State>, steps: seq<Step>, i: nat)
    requires Run(run, steps) && i < |run|
    ensures Inv(run[i])
  {
    hide Inv, Next, Init;
    if i == 0 {
      InitInv(run[0]);
    } else {
      RunInv(run, steps, i - 1);
      NextKeepsInv(run[i - 1], steps[i - 1], run[i]);
    }
  }

  /** In every interleaving at most one thread is past the wait, so at most one holds the lock. */
  lemma MutualExclusion(run: seq<State>, steps: seq<Step>, i: nat, t: Thread, u: Thread)
    requires Run(run, steps) && i < |run| && t in run[i].pcs && u in run[i].pcs
    requires !run[i].pcs[t].Out? && !run[i].pcs[t].Wait? && !run[i].pcs[u].Out? && !run[i].pcs[u].Wait?
    ensures t == u
  {
    RunInv(run, steps, i);
  }

  ghost function TicketsOut(s: State): set<nat> {
    set v | v in s.pcs && !s.pcs[v].Out? :: s.pcs[v].ticket
  }

  lemma TicketsAreConsecutive(run: seq<State>, steps: seq<Step>, i: nat)
    requires Run(run, steps) && i < |run|
    ensures forall k :: k in TicketsOut(run[i]) <==> run[i].serving <= k < run[i].next
  {
    RunInv(run, steps, i);
    var s := run[i];
    forall k | s.serving <= k < s.next
      ensures k in TicketsOut(s)
    {
      assert Outstanding(s, k);
    }
  }

  /** Acquires complete in the order of the tickets, and each returns what the release just before
      returned; at most one flag is ever set. */
  lemma FirstComeFirstServed(run: seq<State>, steps: seq<Step>, i: nat)
    requires Run(run, steps) && i < |steps| && steps[i].ClearFlag? && steps[i].t in run[i].pcs
    ensures run[i].pcs[steps[i].t].FlagRead?
    ensures var k := run[i].pcs[steps[i].t].ticket;
      && k == |run[i].acquired| == |run[i].released| && k < |run[i + 1].acquired|
      && (run[i + 1].acquired[k] <==> k > 0 && run[i].released[k - 1])
  {
    RunInv(run, steps, i);
    assert Next(run[i], steps[i], run[i + 1]);
    StageStep(run[i], steps[i], run[i + 1]);
  }

  lemma AtMostOneFlag(run: seq<State>, steps: seq<Step>, i: nat)
    requires Run(run, steps) && i < |run|
    ensures |run[i].flags| == 1024
    ensures forall j, k :: 0 <= j < 1024 && 0 <= k < 1024 && run[i].flags[j] && run[i].flags[k] ==> j == k
  {
    RunInv(run, steps, i);
    hide Stage;
    assert run[i].serving % SLOTS != (run[i].serving + 1) % SLOTS;
  }

  lemma {:induction false} TrailingRun(rs: seq<bool>, n: nat)
    requires n <= |rs| && forall j :: |rs| - n <= j < |rs| ==> rs[j]
    ensures Trailing(rs) >= n
  {
    if n > 0 {
      TrailingRun(rs[..|rs| - 1], n - 1);
    }
  }

  /** Any nine consecutive releases include one without a hand-over. */
  lemma NineReleases(run: seq<State>, steps: seq<Step>, i: nat, from: nat)
    requires Run(run, steps) && i < |run| && from + 9 <= |run[i].released|
    ensures exists j :: from <= j < from + 9 && !run[i].released[j]
  {
    RunInv(run, steps, i);
    var rs := run[i].released;
    if forall j :: from <= j < from + 9 ==> rs[j] {
      TrailingRun(rs[..from + 9], 9);
      assert false;
    }
  }

  // ---- can_hand_over ----------------------------------------------------------------------------

  /** Where a thread that has seen that it can hand over ticket `k` may be. */
  ghost predicate Promised(pc: Pc, k: nat) {
    || pc == Hold(k, true)
    || (pc.Check? && pc.ticket == k && pc.saw)
    || (pc.Decide? && pc.ticket == k && pc.saw)
    || pc == Hand0(k) || pc == Hand1(k) || pc == Hand2(k)
  }

  lemma PromiseStep(s: State, step: Step, s': State, t: Thread, k: nat)
    requires Inv(s) && Next(s, step, s') && t in s.pcs && Promised(s.pcs[t], k)
    ensures t in s'.pcs
    ensures Promised(s'.pcs[t], k) || (step == HandOver(t) && k == |s.released| && s'.released == s.released + [true])
  {
    hide Flags, Counts, Acquires;
    StageStep(s, step, s');
  }

  lemma ReleasedStays(s: State, step: Step, s': State)
    requires Next(s, step, s')
    ensures s.released <= s'.released
  {
  }

  /** When the holder has seen that it can hand over, its release does hand over, whatever the other
      threads do in between: a page write that leaves the remote lock set is followed by a hand-over. */
  lemma {:induction false} PromiseIsKept(run: seq<State>, steps: seq<Step>, i: nat, j: nat, t: Thread, k: nat)
    requires Run(run, steps) && i <= j < |run| && t in run[i].pcs && Promised(run[i].pcs[t], k)
    ensures t in run[j].pcs
    ensures if k < |run[j].released| then run[j].released[k] else Promised(run[j].pcs[t], k)
  {
    hide Next, Inv, Init;
    RunInv(run, steps, i);
    if i == j {
      PromisedIsServed(run[i], t, k);
    } else {
      PromiseIsKept(run, steps, i, j - 1, t, k);
      RunInv(run, steps, j - 1);
      var s, s' := run[j - 1], run[j];
      assert Next(s, steps[j - 1], s');
      ReleasedStays(s, steps[j - 1], s');
      ThreadStays(s, steps[j - 1], s', t);
      if k >= |s.released| {
        PromiseStep(s, steps[j - 1], s', t, k);
        if Promised(s'.pcs[t], k) {
          RunInv(run, steps, j);
          PromisedIsServed(s', t, k);
        }
      }
    }
  }

  /** A thread that releases ticket `k` without a hand-over. */
  ghost predicate Passing(pc: Pc, k: nat) {
    pc == Pass0(k) || pc == Pass1(k)
  }

  lemma PassingStep(s: State, step: Step, s': State, t: Thread, k: nat)
    requires Inv(s) && Next(s, step, s') && t in s.pcs && Passing(s.pcs[t], k)
    ensures t in s'.pcs && k == |s.released|
    ensures
      || (Passing(s'.pcs[t], k) && |s'.released| == |s.released|)
      || (step == Pass(t) && s'.released == s.released + [false])
  {
    hide Flags, Counts, Acquires;
    StageStep(s, step, s');
  }

  lemma {:induction false} PassIsKept(run: seq<State>, steps: seq<Step>, i: nat, j: nat, t: Thread, k: nat)
    requires Run(run, steps) && i <= j < |run| && t in run[i].pcs && Passing(run[i].pcs[t], k)
    ensures t in run[j].pcs
    ensures if k < |run[j].released| then !run[j].released[k] else Passing(run[j].pcs[t], k)
  {
    hide Next, Inv, Init;
    RunInv(run, steps, i);
    if i == j {
      PassingIsServed(run[i], t, k);
    } else {
      PassIsKept(run, steps, i, j - 1, t, k);
      RunInv(run, steps, j - 1);
      var s, s' := run[j - 1], run[j];
      assert Next(s, steps[j - 1], s');
      ReleasedStays(s, steps[j - 1], s');
      ThreadStays(s, steps[j - 1], s', t);
      if k >= |s.released| {
        PassingStep(s, steps[j - 1], s', t, k);
      }
    }
  }

  lemma PassingIsServed(s: State, t: Thread, k: nat)
    requires Inv(s) && t in s.pcs && Passing(s.pcs[t], k)
    ensures k == |s.released|
  {
  }

  lemma ThreadStays(s: State, step: Step, s': State, t: Thread)
    requires Next(s, step, s') && t in s.pcs
    ensures t in s'.pcs
  {
  }

  lemma PromisedIsServed(s: State, t: Thread, k: nat)
    requires Inv(s) && t in s.pcs && Promised(s.pcs[t], k)
    ensures k == |s.released|
  {
  }

  // ---- When a release hands over although can_hand_over said no -----------------------------------

  /** The thread is in its critical section or looks at the words on its way out. */
  ghost predicate Working(pc: Pc) {
    pc.Hold? || pc.Check? || pc.Decide?
  }

  /** While the holder works, other threads change neither the count nor who is served; they can only
      draw tickets. */
  lemma OthersOnlyDraw(s: State, step: Step, s': State, t: Thread)
    requires Inv(s) && Next(s, step, s') && t in s.pcs && Working(s.pcs[t]) && step.t != t
    ensures t in s'.pcs && s'.pcs[t] == s.pcs[t] && s'.serving == s.serving && s'.count == s.count
    ensures s'.next == s.next + if step.Draw? then 1 else 0
  {
    hide Flags, Counts, Promises, Acquires;
    StageStep(s, step, s');
  }

  ghost predicate DrawBetween(steps: seq<Step>, i: nat, j: nat) {
    exists d :: i <= d < j && d < |steps| && steps[d].Draw?
  }

  lemma DrawLater(steps: seq<Step>, i: nat, j: nat)
    requires i <= j < |steps|
    ensures DrawBetween(steps, i, j + 1) <==> DrawBetween(steps, i, j) || steps[j].Draw?
  {
    if DrawBetween(steps, i, j) {
      var d :| i <= d < j && d < |steps| && steps[d].Draw?;
      assert d < j + 1;
    }
  }

  /** The same over a stretch of a run in which the holder takes no step. */
  lemma {:induction false} WhileOthersMove(run: seq<State>, steps: seq<Step>, i: nat, j: nat, t: Thread)
    requires Run(run, steps) && i <= j < |run| && t in run[i].pcs && Working(run[i].pcs[t])
    requires forall x :: i <= x < j ==> steps[x].t != t
    ensures t in run[j].pcs && run[j].pcs[t] == run[i].pcs[t]
    ensures run[j].serving == run[i].serving && run[j].count == run[i].count && run[j].next >= run[i].next
    ensures run[j].next > run[i].next <==> DrawBetween(steps, i, j)
  {
    hide Next, Inv, Init, DrawBetween;
    if i == j {
      NoDrawBetween(steps, i);
    } else {
      WhileOthersMove(run, steps, i, j - 1, t);
      RunInv(run, steps, j - 1);
      OthersOnlyDraw(run[j - 1], steps[j - 1], run[j], t);
      DrawLater(steps, i, j - 1);
    }
  }

  lemma NoDrawBetween(steps: seq<Step>, i: nat)
    ensures !DrawBetween(steps, i, i)
  {
  }

  /** The holder calls can_hand_over, which loads the word at step `c` and the count at step `d`, and
      then releases: the word is loaded at step `l` and the count at step `m`. In between it takes no
      other step. */
  ghost predicate CheckAndRelease(run: seq<State>, steps: seq<Step>, t: Thread, c: nat, d: nat, l: nat, m: nat) {
    && Run(run, steps) && c < d < l < m < |steps|
    && steps[c] == CheckWord(t) && steps[d] == CheckCount(t) && steps[l] == LoadWord(t) && steps[m] == LoadCount(t)
    && (forall x :: c < x < m && steps[x].t == t ==> x == d || x == l)
  }

  /** What the holder sees on the way. */
  lemma CheckThenRelease(run: seq<State>, steps: seq<Step>, t: Thread, c: nat, d: nat, l: nat, m: nat)
    requires CheckAndRelease(run, steps, t, c, d, l, m)
    ensures var s := run[c];
      && t in s.pcs && s.pcs[t].Hold? && t in run[d + 1].pcs && t in run[m + 1].pcs
      && run[d + 1].pcs[t] == Hold(s.pcs[t].ticket, s.next > s.serving + 1 && s.count < MAX_HAND_OVER)
      && run[m + 1].pcs[t] == (if run[l].next > s.serving + 1 && s.count < MAX_HAND_OVER then Hand0(s.pcs[t].ticket)
                               else Pass0(s.pcs[t].ticket))
      && run[l].next >= s.next && (run[l].next > s.next <==> DrawBetween(steps, c + 1, l))
  {
    hide Inv, Init, DrawBetween, Next;
    OwnStep(run[c], steps[c], run[c + 1]);
    WhileOthersMove(run, steps, c + 1, d, t);
    OwnStep(run[d], steps[d], run[d + 1]);
    WhileOthersMove(run, steps, d + 1, l, t);
    OwnStep(run[l], steps[l], run[l + 1]);
    WhileOthersMove(run, steps, l + 1, m, t);
    OwnStep(run[m], steps[m], run[m + 1]);
    DrawsJoin(steps, c + 1, d, l);
  }

  /** The four loads of a holder on its way out. */
  lemma OwnStep(s: State, step: Step, s': State)
    requires Next(s, step, s') && (step.CheckWord? || step.CheckCount? || step.LoadWord? || step.LoadCount?)
    ensures step.t in s.pcs && step.t in s'.pcs && s'.serving == s.serving && s'.count == s.count && s'.next == s.next
    ensures var pc, pc', waiters := s.pcs[step.t], s'.pcs[step.t], s.next - s.serving - 1 > 0;
      && (step.CheckWord? ==> pc.Hold? && pc' == Check(pc.ticket, pc.saw, waiters))
      && (step.CheckCount? ==> pc.Check? && pc' == Hold(pc.ticket, pc.waiters && s.count < MAX_HAND_OVER))
      && (step.LoadWord? ==> pc.Hold? && pc' == Decide(pc.ticket, pc.saw, waiters))
      && (step.LoadCount? ==>
          pc.Decide? && pc' == if pc.waiters && s.count < MAX_HAND_OVER then Hand0(pc.ticket) else Pass0(pc.ticket))
  {
  }

  lemma DrawsJoin(steps: seq<Step>, i: nat, d: nat, j: nat)
    requires i <= d < j < |steps| && !steps[d].Draw?
    ensures DrawBetween(steps, i, j) <==> DrawBetween(steps, i, d) || DrawBetween(steps, d + 1, j)
  {
  }

  /** Exactly when a release hands over although the last can_hand_over was false, so that the remote lock
      was cleared: the limit was not reached, nobody waited when can_hand_over loaded the word, and a
      thread drew a ticket between that load and the load of the release. Then the next acquire returns
      true and its thread does not take the remote lock. */
  lemma HandOverDespiteRefusal(run: seq<State>, steps: seq<Step>, t: Thread, c: nat, d: nat, l: nat, m: nat, j: nat)
    requires CheckAndRelease(run, steps, t, c, d, l, m) && m < j < |run|
    requires t in run[d + 1].pcs && run[d + 1].pcs[t].Hold? && !run[d + 1].pcs[t].saw
    ensures t in run[c].pcs && run[c].pcs[t].Hold?
    ensures var k := run[c].pcs[t].ticket;
      var late := run[c].count < MAX_HAND_OVER && run[c].next == run[c].serving + 1 && DrawBetween(steps, c + 1, l);
      && (k < |run[j].released| ==> (run[j].released[k] <==> late))
      && (k + 1 < |run[j].acquired| ==> (run[j].acquired[k + 1] <==> late))
  {
    hide Inv, Init, DrawBetween, Next;
    CheckThenRelease(run, steps, t, c, d, l, m);
    RunInv(run, steps, c);
    HolderTicket(run[c], t);
    var k := run[c].pcs[t].ticket;
    if run[m + 1].pcs[t] == Hand0(k) {
      PromiseIsKept(run, steps, m + 1, j, t, k);
    } else {
      PassIsKept(run, steps, m + 1, j, t, k);
    }
    RunInv(run, steps, j);
    if k + 1 < |run[j].acquired| {
      AcquireFollowsRelease(run[j], k);
    }
  }

  lemma HolderTicket(s: State, t: Thread)
    requires Inv(s) && t in s.pcs && s.pcs[t].Hold?
    ensures s.pcs[t].ticket == s.serving && s.serving < s.next
  {
  }

  lemma AcquireFollowsRelease(s: State, k: nat)
    requires Inv(s) && k + 1 < |s.acquired|
    ensures k < |s.released| && (s.acquired[k + 1] <==> s.released[k])
  {
  }

  // ---- The remote lock of a holder that was handed over --------------------------------------------

  /** A thread that hands over ticket `k`. */
  ghost predicate Handing(pc: Pc, k: nat) {
    pc == Hand0(k) || pc == Hand1(k) || pc == Hand2(k)
  }

  lemma HandingStep(s: State, step: Step, s': State, t: Thread, k: nat)
    requires Inv(s) && Next(s, step, s') && t in s.pcs && Handing(s.pcs[t], k)
    ensures t in s'.pcs && k == |s.released|
    ensures
      || (Handing(s'.pcs[t], k) && |s'.released| == |s.released|)
      || (step == HandOver(t) && s'.released == s.released + [true])
  {
    hide Flags, Counts, Acquires;
    StageStep(s, step, s');
  }

  lemma {:induction false} HandingIsKept(run: seq<State>, steps: seq<Step>, i: nat, j: nat, t: Thread, k: nat)
    requires Run(run, steps) && i <= j < |run| && t in run[i].pcs && Handing(run[i].pcs[t], k)
    ensures t in run[j].pcs && (|run[j].released| <= k ==> Handing(run[j].pcs[t], k))
  {
    hide Next, Inv, Init, Handing;
    if i < j {
      HandingIsKept(run, steps, i, j - 1, t, k);
      RunInv(run, steps, j - 1);
      var s, s' := run[j - 1], run[j];
      ReleasedStays(s, steps[j - 1], s');
      ThreadStays(s, steps[j - 1], s', t);
      if |s.released| <= k {
        HandingStep(s, steps[j - 1], s', t, k);
      }
    }
  }

  /** From one acquire to the next only the holder in between can change the remote lock. */
  lemma RemoteStep(s: State, step: Step, s': State, k: nat)
    requires Inv(s) && Next(s, step, s') && |s.acquired| == |s'.acquired| == k + 1 && k < |s.owner|
    requires s.serving == k ==> step != CheckCount(s.owner[k]) && step != Pass(s.owner[k])
    ensures s'.remote == s.remote
  {
    hide Flags, Counts, Promises;
    StageStep(s, step, s');
  }

  lemma OnlyAppends(s: State, step: Step, s': State)
    requires Next(s, step, s')
    ensures s.owner <= s'.owner && s.acquired <= s'.acquired
  {
  }

  lemma {:induction false} HistoryGrows(run: seq<State>, steps: seq<Step>, i: nat, j: nat)
    requires Run(run, steps) && i <= j < |run|
    ensures run[i].owner <= run[j].owner && run[i].acquired <= run[j].acquired
  {
    hide Next, Init;
    if i < j {
      HistoryGrows(run, steps, i, j - 1);
      OnlyAppends(run[j - 1], steps[j - 1], run[j]);
    }
  }

  /** The holder of ticket `k` neither refuses a hand-over nor passes without one between two moments. */
  ghost predicate KeepsRemote(run: seq<State>, steps: seq<Step>, i: nat, j: nat, t: Thread, k: nat) {
    && |run| == |steps| + 1
    && forall x :: i <= x < j && x < |steps| && run[x].serving == k ==> steps[x] != CheckCount(t) && steps[x] != Pass(t)
  }

  lemma {:induction false} RemoteStays(run: seq<State>, steps: seq<Step>, i: nat, j: nat, t: Thread, k: nat)
    requires Run(run, steps) && i <= j < |run| && |run[i].acquired| == |run[j].acquired| == k + 1
    requires k < |run[i].owner| && run[i].owner[k] == t && KeepsRemote(run, steps, i, j, t, k)
    ensures run[j].remote == run[i].remote
  {
    hide Next, Init, Inv;
    if i < j {
      HistoryGrows(run, steps, i, j - 1);
      HistoryGrows(run, steps, j - 1, j);
      RemoteStays(run, steps, i, j - 1, t, k);
      RunInv(run, steps, j - 1);
      RemoteStep(run[j - 1], steps[j - 1], run[j], k);
    }
  }

  lemma HolderHistory(s: State, t: Thread)
    requires Inv(s) && t in s.pcs && s.pcs[t].Hold?
    ensures var k := s.pcs[t].ticket; k < |s.owner| && s.owner[k] == t && |s.acquired| == k + 1
  {
    hide Flags, Counts, Promises;
    assert Outstanding(s, s.serving);
  }

  /** A holder that was handed over works under the remote lock exactly if its predecessor had it and was
      not refused: after a refusal the remote lock is not set while it works. */
  lemma RemoteAfterHandOver(run: seq<State>, steps: seq<Step>, t: Thread, c: nat, d: nat, l: nat, m: nat,
                            j: nat, u: Thread)
    requires CheckAndRelease(run, steps, t, c, d, l, m) && m < j < |steps| && steps[j] == ClearFlag(u)
    requires t in run[c].pcs && run[c].pcs[t].Hold? && |run[j].acquired| == run[c].pcs[t].ticket + 1
    requires run[j + 1].acquired == run[j].acquired + [true] && t in run[d + 1].pcs && run[d + 1].pcs[t].Hold?
    ensures run[j + 1].remote <==> run[c].remote && run[d + 1].pcs[t].saw
  {
    hide Next, Init, Inv;
    var k := run[c].pcs[t].ticket;
    RunInv(run, steps, c);
    HolderHistory(run[c], t);
    HistoryGrows(run, steps, c, d);
    HistoryGrows(run, steps, d, d + 1);
    HistoryGrows(run, steps, d + 1, j);
    RemoteStays(run, steps, c, d, t, k);
    Refusal(run[d], steps[d], run[d + 1]);
    StretchKeepsRemote(run, steps, t, c, d, l, m, j, k);
    RemoteStays(run, steps, d + 1, j, t, k);
    Entered(run[j], steps[j], run[j + 1]);
  }

  lemma Refusal(s: State, step: Step, s': State)
    requires Next(s, step, s') && step.CheckCount?
    ensures step.t in s'.pcs && s'.pcs[step.t].Hold? && s'.acquired == s.acquired
    ensures s'.remote <==> s.remote && s'.pcs[step.t].saw
  {
  }

  lemma Entered(s: State, step: Step, s': State)
    requires Next(s, step, s') && step.ClearFlag? && s'.acquired == s.acquired + [true]
    ensures s'.remote == s.remote
  {
    assert s'.acquired[|s.acquired|];
  }

  lemma StretchKeepsRemote(run: seq<State>, steps: seq<Step>, t: Thread, c: nat, d: nat, l: nat, m: nat, j: nat, k: nat)
    requires CheckAndRelease(run, steps, t, c, d, l, m) && m < j < |steps| && t in run[c].pcs && run[c].pcs[t].Hold?
    requires k == run[c].pcs[t].ticket && |run[j].acquired| == k + 1 && run[j + 1].acquired == run[j].acquired + [true]
    ensures KeepsRemote(run, steps, d + 1, j, t, k)
  {
    hide Next, Init, Inv, DrawBetween;
    CheckThenRelease(run, steps, t, c, d, l, m);
    RunInv(run, steps, j + 1);
    AcquireFollowsRelease(run[j + 1], k);
    if run[m + 1].pcs[t] == Pass0(k) {
      PassIsKept(run, steps, m + 1, j + 1, t, k);
    }
    assert run[m + 1].pcs[t] == Hand0(k);
    forall x | d + 1 <= x < j && run[x].serving == k
      ensures steps[x] != CheckCount(t) && steps[x] != Pass(t)
    {
      if x > m {
        HandingIsKept(run, steps, m + 1, x, t, k);
        RunInv(run, steps, x);
        ServedIsReleased(run[x]);
        HandingTakes(run[x], steps[x], run[x + 1], t, k);
      }
    }
  }

  lemma ServedIsReleased(s: State)
    requires Inv(s)
    ensures |s.released| == s.serving
  {
  }

  lemma HandingTakes(s: State, step: Step, s': State, t: Thread, k: nat)
    requires Next(s, step, s') && t in s.pcs && Handing(s.pcs[t], k)
    ensures step != CheckCount(t) && step != Pass(t)
  {
  }

  /** A run from the start in which it happens: thread 1 comes after thread 0 has asked and before it
      releases, and enters without the remote lock. */
  lemma RefusalThenHandOver() returns (run: seq<State>, steps: seq<Step>)
    ensures CheckAndRelease(run, steps, 0, 4, 5, 7, 8) && |steps| == 15
    ensures 0 in run[6].pcs && run[6].pcs[0] == Hold(0, false)
    ensures run[15].released == [true] && run[15].acquired == [false, true] && run[4].remote && !run[15].remote
  {
    var r, q := UpToRefusal();
    var r', q' := LateWaiter();
    assert 0 in AfterRefusal().pcs && AfterRefusal().pcs[0] == Hold(0, false);
    hide Next, Init, AfterRefusal;
    run, steps := r + r'[1..], q + q';
    forall i | 0 <= i < |steps|
      ensures Next(run[i], steps[i], run[i + 1])
    {
      assert i >= 6 ==> steps[i] == q'[i - 6] && run[i + 1] == r'[i - 5] && run[i] == r'[i - 6];
    }
  }

  function Dark(): (flags: seq<bool>)
    ensures |flags| == SLOTS && forall i :: 0 <= i < SLOTS ==> !flags[i]
  {
    seq(SLOTS, _ => false)
  }

  function At(next: nat, serving: nat, count: nat, flags: seq<bool>, pc0: Pc, pc1: Pc,
              owner: seq<Thread>, released: seq<bool>, acquired: seq<bool>, remote: bool): State {
    State(next, serving, count, flags, map[0 := pc0, 1 := pc1], owner, released, acquired, remote)
  }

  function AfterRefusal(): State {
    At(1, 0, 0, Dark(), Hold(0, false), Out, [0], [], [false], false)
  }

  function Entering(): State {
    At(1, 0, 0, Dark(), FlagRead(0, false), Out, [0], [], [], false)
  }

  lemma UpToFlag() returns (run: seq<State>, steps: seq<Step>)
    ensures |run| == 4 && steps == [Draw(0), See(0), ReadFlag(0)] && Init(run[0]) && run[3] == Entering()
    ensures forall i :: 0 <= i < 3 ==> Next(run[i], steps[i], run[i + 1])
  {
    var f := Dark();
    run := [At(0, 0, 0, f, Out, Out, [], [], [], false), At(1, 0, 0, f, Wait(0), Out, [0], [], [], false),
            At(1, 0, 0, f, Turn(0), Out, [0], [], [], false), Entering()];
    steps := [Draw(0), See(0), ReadFlag(0)];
    hide Dark;
    forall i: nat | i < 3
      ensures Next(run[i], steps[i], run[i + 1])
    {
      assert run[i + 1].pcs == run[i].pcs[0 := run[i + 1].pcs[0]];
    }
  }

  lemma EnterAndAsk() returns (run: seq<State>, steps: seq<Step>)
    ensures |run| == 4 && steps == [ClearFlag(0), CheckWord(0), CheckCount(0)]
    ensures run[0] == Entering() && run[1].remote && run[3] == AfterRefusal()
    ensures forall i :: 0 <= i < 3 ==> Next(run[i], steps[i], run[i + 1])
  {
    var f := Dark();
    assert f[0 := false] == f;
    run := [Entering(), At(1, 0, 0, f, Hold(0, false), Out, [0], [], [false], true),
            At(1, 0, 0, f, Check(0, false, false), Out, [0], [], [false], true), AfterRefusal()];
    steps := [ClearFlag(0), CheckWord(0), CheckCount(0)];
    hide Dark;
    forall i: nat | i < 3
      ensures Next(run[i], steps[i], run[i + 1])
    {
      assert run[i + 1].pcs == run[i].pcs[0 := run[i + 1].pcs[0]];
    }
  }

  lemma UpToRefusal() returns (run: seq<State>, steps: seq<Step>)
    ensures |run| == 7 && |steps| == 6 && Init(run[0]) && run[6] == AfterRefusal() && run[4].remote
    ensures steps == [Draw(0), See(0), ReadFlag(0), ClearFlag(0), CheckWord(0), CheckCount(0)]
    ensures forall i :: 0 <= i < 6 ==> Next(run[i], steps[i], run[i + 1])
  {
    hide Next, Init, Entering, AfterRefusal;
    var r, q := UpToFlag();
    var r', q' := EnterAndAsk();
    run, steps := r + r'[1..], q + q';
    forall i: nat | i < 6
      ensures Next(run[i], steps[i], run[i + 1])
    {
      assert 3 <= i ==> Next(r'[i - 3], q'[i - 3], r'[i - 2]);
    }
  }

  function HandOverBegins(): State {
    At(2, 0, 0, Dark(), Hand0(0), Wait(1), [0, 1], [], [false], false)
  }

  lemma LateDraw() returns (run: seq<State>, steps: seq<Step>)
    ensures |run| == 4 && steps == [Draw(1), LoadWord(0), LoadCount(0)] && run[0] == AfterRefusal()
      && run[3] == HandOverBegins()
    ensures forall i :: 0 <= i < 3 ==> Next(run[i], steps[i], run[i + 1])
  {
    var f, o := Dark(), [0, 1];
    run := [AfterRefusal(), At(2, 0, 0, f, Hold(0, false), Wait(1), o, [], [false], false),
            At(2, 0, 0, f, Decide(0, false, true), Wait(1), o, [], [false], false), HandOverBegins()];
    steps := [Draw(1), LoadWord(0), LoadCount(0)];
    hide Dark;
    assert [0] + [1] == o;
    forall i: nat | i < 3
      ensures Next(run[i], steps[i], run[i + 1])
    {
      assert run[i + 1].pcs == run[i].pcs[steps[i].t := run[i + 1].pcs[steps[i].t]];
    }
  }

  function HandOverDone(): State {
    At(2, 1, 1, Dark()[1 := true], Out, Wait(1), [0, 1], [true], [false], false)
  }

  lemma FinishHandOver() returns (run: seq<State>, steps: seq<Step>)
    ensures |run| == 4 && steps == [SetFlag(0), Increment(0), HandOver(0)] && run[0] == HandOverBegins()
      && run[3] == HandOverDone()
    ensures forall i :: 0 <= i < 3 ==> Next(run[i], steps[i], run[i + 1])
  {
    var lit, o := Dark()[1 := true], [0, 1];
    run := [HandOverBegins(), At(2, 0, 0, lit, Hand1(0), Wait(1), o, [], [false], false),
            At(2, 0, 1, lit, Hand2(0), Wait(1), o, [], [false], false), HandOverDone()];
    steps := [SetFlag(0), Increment(0), HandOver(0)];
    hide Dark;
    forall i: nat | i < 3
      ensures Next(run[i], steps[i], run[i + 1])
    {
      assert run[i + 1].pcs == run[i].pcs[0 := run[i + 1].pcs[0]];
    }
  }

  lemma EnterHandedOver() returns (run: seq<State>, steps: seq<Step>)
    ensures |run| == 4 && steps == [See(1), ReadFlag(1), ClearFlag(1)] && run[0] == HandOverDone()
    ensures run[3].released == [true] && run[3].acquired == [false, true] && !run[3].remote
    ensures forall i :: 0 <= i < 3 ==> Next(run[i], steps[i], run[i + 1])
  {
    var f, o := Dark(), [0, 1];
    var lit := f[1 := true];
    assert lit[1 := false] == f;
    run := [HandOverDone(), At(2, 1, 1, lit, Out, Turn(1), o, [true], [false], false),
            At(2, 1, 1, lit, Out, FlagRead(1, true), o, [true], [false], false),
            At(2, 1, 1, f, Out, Hold(1, false), o, [true], [false, true], false)];
    steps := [See(1), ReadFlag(1), ClearFlag(1)];
    hide Dark;
    forall i: nat | i < 3
      ensures Next(run[i], steps[i], run[i + 1])
    {
      assert run[i + 1].pcs == run[i].pcs[1 := run[i + 1].pcs[1]];
    }
  }

  lemma LateWaiter() returns (run: seq<State>, steps: seq<Step>)
    ensures |run| == 10 && |steps| == 9 && run[0] == AfterRefusal()
    ensures run[9].released == [true] && run[9].acquired == [false, true] && !run[9].remote
    ensures steps == [Draw(1), LoadWord(0), LoadCount(0), SetFlag(0), Increment(0), HandOver(0),
                      See(1), ReadFlag(1), ClearFlag(1)]
    ensures forall i :: 0 <= i < 9 ==> Next(run[i], steps[i], run[i + 1])
  {
    hide Next, AfterRefusal, HandOverBegins, HandOverDone;
    var r, q := LateDraw();
    var r', q' := FinishHandOver();
    var r'', q'' := EnterHandedOver();
    run, steps := r + r'[1..] + r''[1..], q + q' + q'';
    forall i: nat | i < 9
      ensures Next(run[i], steps[i], run[i + 1])
    {
      assert 3 <= i < 6 ==> Next(r'[i - 3], q'[i - 3], r'[i - 2]);
      assert 6 <= i ==> Next(r''[i - 6], q''[i - 6], r''[i - 5]);
    }
  }

  // ---- Eight hand-overs in a row --------------------------------------------------------------------

  /** A piece of a run from one state to another. */
  ghost predicate Leads(a: State, run: seq<State>, steps: seq<Step>, b: State) {
    && |run| == |steps| + 1 && run[0] == a && run[|steps|] == b
    && forall i :: 0 <= i < |steps| ==> Next(run[i], steps[i], run[i + 1])
  }

  lemma Then(a: State, run: seq<State>, steps: seq<Step>, b: State, more: seq<State>, next: seq<Step>, c: State)
    requires Leads(a, run, steps, b) && Leads(b, more, next, c)
    ensures Leads(a, run + more[1..], steps + next, c)
  {
    hide Next;
    var r, q := run + more[1..], steps + next;
    forall i | 0 <= i < |q|
      ensures Next(r[i], q[i], r[i + 1])
    {
      if i >= |steps| {
        assert Next(more[i - |steps|], next[i - |steps|], more[i - |steps| + 1]);
      }
    }
  }

  /** Ten threads with a ticket each; thread `k` is at `pc`, those before it are done and those after it
      wait. */
  function Ten(k: nat, pc: Pc, count: nat, flags: seq<bool>, done: nat, got: nat, remote: bool): State {
    State(10, done, count, flags, map t: nat | t < 10 :: if t < k then Out else if t == k then pc else Wait(t),
          seq(10, i requires 0 <= i => i), seq(done, _ => true), seq(got, i => i > 0), remote)
  }

  lemma TenMoves(k: nat, pc: Pc, pc': Pc, flags: seq<bool>, count: nat, done: nat, got: nat, remote: bool)
    requires k < 10
    ensures var s := Ten(k, pc, count, flags, done, got, remote);
      && s.pcs[k := pc'] == Ten(k, pc', count, flags, done, got, remote).pcs
      && (k < 9 && pc' == Out ==> s.pcs[k := pc'] == Ten(k + 1, Wait(k + 1), count, flags, done, got, remote).pcs)
      && s.released + [true] == Ten(k, pc, count, flags, done + 1, got, remote).released
      && (got > 0 ==> s.acquired + [true] == Ten(k, pc, count, flags, done, got + 1, remote).acquired)
  {
  }

  /** The holder of ticket `k`, the `k`-th in a row that was handed over. */
  function Chain(k: nat): State {
    Ten(k, Hold(k, false), k, Dark(), k, k + 1, true)
  }

  function Halfway(k: nat): State {
    Ten(k, Hand1(k), k, Dark()[(k + 1) % SLOTS := true], k, k + 1, true)
  }

  lemma HandsOn(k: nat) returns (run: seq<State>, steps: seq<Step>)
    requires k < 8
    ensures Leads(Chain(k), run, steps, Halfway(k))
  {
    var f := Dark();
    assert |f| == SLOTS;
    run := [Chain(k), Ten(k, Decide(k, false, true), k, f, k, k + 1, true), Ten(k, Hand0(k), k, f, k, k + 1, true),
            Halfway(k)];
    steps := [LoadWord(k), LoadCount(k), SetFlag(k)];
    hide Dark;
    TenMoves(k, Hold(k, false), Decide(k, false, true), f, k, k, k + 1, true);
    TenMoves(k, Decide(k, false, true), Hand0(k), f, k, k, k + 1, true);
    TenMoves(k, Hand0(k), Hand1(k), f, k, k, k + 1, true);
  }

  function Handed(k: nat): State
    requires k > 0
  {
    Ten(k, Wait(k), k, Dark()[k % SLOTS := true], k, k, true)
  }

  lemma HandsOver(k: nat) returns (run: seq<State>, steps: seq<Step>)
    requires k < 8
    ensures Leads(Halfway(k), run, steps, Handed(k + 1))
  {
    var lit := Dark()[(k + 1) % SLOTS := true];
    run := [Halfway(k), Ten(k, Hand2(k), k + 1, lit, k, k + 1, true), Handed(k + 1)];
    steps := [Increment(k), HandOver(k)];
    hide Dark;
    TenMoves(k, Hand1(k), Hand2(k), lit, k, k, k + 1, true);
    TenMoves(k, Hand2(k), Out, lit, k + 1, k, k + 1, true);
  }

  lemma TakesOver(k: nat) returns (run: seq<State>, steps: seq<Step>)
    requires 0 < k <= 8
    ensures Leads(Handed(k), run, steps, Chain(k))
  {
    var f := Dark();
    var lit := f[k % SLOTS := true];
    assert lit[k % SLOTS := false] == f;
    run := [Handed(k), Ten(k, Turn(k), k, lit, k, k, true), Ten(k, FlagRead(k, true), k, lit, k, k, true), Chain(k)];
    steps := [See(k), ReadFlag(k), ClearFlag(k)];
    hide Dark;
    TenMoves(k, Wait(k), Turn(k), lit, k, k, k, true);
    TenMoves(k, Turn(k), FlagRead(k, true), lit, k, k, k, true);
    TenMoves(k, FlagRead(k, true), Hold(k, false), lit, k, k, k, true);
  }

  lemma {:induction false} Handovers(k: nat) returns (run: seq<State>, steps: seq<Step>)
    requires k <= 8
    ensures Leads(Chain(0), run, steps, Chain(k))
  {
    hide Next, Chain, Halfway, Handed;
    if k == 0 {
      run, steps := [Chain(0)], [];
    } else {
      run, steps := Handovers(k - 1);
      var r, q := HandsOn(k - 1);
      Then(Chain(0), run, steps, Chain(k - 1), r, q, Halfway(k - 1));
      run, steps := run + r[1..], steps + q;
      r, q := HandsOver(k - 1);
      Then(Chain(0), run, steps, Halfway(k - 1), r, q, Handed(k));
      run, steps := run + r[1..], steps + q;
      r, q := TakesOver(k);
      Then(Chain(0), run, steps, Handed(k), r, q, Chain(k));
      run, steps := run + r[1..], steps + q;
    }
  }

  /** After `n` of the ten threads have drawn. */
  function Drawn(n: nat): State {
    State(n, 0, 0, Dark(), map t: nat | t < 10 :: if t < n then Wait(t) else Out, seq(n, i requires 0 <= i => i),
          [], [], false)
  }

  lemma {:induction false} Draws(n: nat) returns (run: seq<State>, steps: seq<Step>)
    requires n <= 10
    ensures Leads(Drawn(0), run, steps, Drawn(n))
  {
    if n == 0 {
      run, steps := [Drawn(0)], [];
    } else {
      run, steps := Draws(n - 1);
      DrawOne(n - 1);
      var r, q := [Drawn(n - 1), Drawn(n)], [Draw(n - 1)];
      hide Next, Drawn;
      Then(Drawn(0), run, steps, Drawn(n - 1), r, q, Drawn(n));
      run, steps := run + r[1..], steps + q;
    }
  }

  lemma DrawOne(n: nat)
    requires n < 10
    ensures Next(Drawn(n), Draw(n), Drawn(n + 1))
  {
    hide Dark;
    var s, s' := Drawn(n), Drawn(n + 1);
    assert s.pcs[n := Wait(n)] == s'.pcs;
    assert s.owner + [n] == s'.owner;
  }

  lemma FirstEnters() returns (run: seq<State>, steps: seq<Step>)
    ensures Leads(Drawn(10), run, steps, Chain(0))
  {
    var f := Dark();
    assert f[0 := false] == f;
    run := [Ten(0, Wait(0), 0, f, 0, 0, false), Ten(0, Turn(0), 0, f, 0, 0, false),
            Ten(0, FlagRead(0, false), 0, f, 0, 0, false), Chain(0)];
    steps := [See(0), ReadFlag(0), ClearFlag(0)];
    hide Dark;
    assert Drawn(10).pcs == run[0].pcs && Drawn(10) == run[0];
    TenMoves(0, Wait(0), Turn(0), f, 0, 0, 0, false);
    TenMoves(0, Turn(0), FlagRead(0, false), f, 0, 0, 0, false);
    TenMoves(0, FlagRead(0, false), Hold(0, false), f, 0, 0, 0, false);
    assert [false] == Chain(0).acquired;
  }

  function Passing8(): State {
    Ten(8, Pass0(8), 8, Dark(), 8, 9, true)
  }

  lemma NinthRefuses() returns (run: seq<State>, steps: seq<Step>)
    ensures Leads(Chain(8), run, steps, Passing8())
  {
    var f := Dark();
    run := [Chain(8), Ten(8, Decide(8, false, true), 8, f, 8, 9, true), Passing8()];
    steps := [LoadWord(8), LoadCount(8)];
    hide Dark;
    TenMoves(8, Hold(8, false), Decide(8, false, true), f, 8, 8, 9, true);
    TenMoves(8, Decide(8, false, true), Pass0(8), f, 8, 8, 9, true);
  }

  lemma NinthPasses() returns (run: seq<State>, steps: seq<Step>, last: State)
    ensures Leads(Passing8(), run, steps, last)
    ensures last.released == Chain(8).released + [false] && 9 in last.pcs && last.pcs[9] == Wait(9)
  {
    var f := Dark();
    last := Ten(9, Wait(9), 0, f, 8, 9, false).(serving := 9, released := Chain(8).released + [false]);
    run := [Passing8(), Ten(8, Pass1(8), 0, f, 8, 9, true), last];
    steps := [Reset(8), Pass(8)];
    hide Dark;
    TenMoves(8, Pass0(8), Pass1(8), f, 8, 8, 9, true);
    TenMoves(8, Pass1(8), Out, f, 0, 8, 9, true);
  }

  /** A run from the start with eight hand-overs in a row; the ninth release does not hand over although a
      thread waits. With `NineReleases` this makes eight the exact limit. */
  lemma EightHandOvers() returns (run: seq<State>, steps: seq<Step>)
    ensures Run(run, steps)
    ensures run[|steps|].released == [true, true, true, true, true, true, true, true, false]
    ensures 9 in run[|steps|].pcs && run[|steps|].pcs[9] == Wait(9)
  {
    run, steps := Draws(10);
    var r, q := FirstEnters();
    var r', q' := Handovers(8);
    var r'', q'' := NinthRefuses();
    var r3, q3, last := NinthPasses();
    assert Init(Drawn(0));
    assert Chain(8).released == [true, true, true, true, true, true, true, true];
    hide Next, Init, Drawn, Chain, Passing8;
    Then(Drawn(0), run, steps, Drawn(10), r, q, Chain(0));
    run, steps := run + r[1..], steps + q;
    Then(Drawn(0), run, steps, Chain(0), r', q', Chain(8));
    run, steps := run + r'[1..], steps + q';
    Then(Drawn(0), run, steps, Chain(8), r'', q'', Passing8());
    run, steps := run + r''[1..], steps + q'';
    Then(Drawn(0), run, steps, Passing8(), r3, q3, last);
    run, steps := run + r3[1..], steps + q3;
  }

  // ---- Every ticket is served --------------------------------------------------------------------------

  /** The eight releases before the next one have all handed over. */
  ghost predicate EightInARow(released: seq<bool>) {
    |released| >= 8 && forall k :: |released| - 8 <= k < |released| ==> released[k]
  }

  lemma {:induction false} TrailingRow(rs: seq<bool>, n: nat)
    requires Trailing(rs) >= n
    ensures n <= |rs| && forall k :: |rs| - n <= k < |rs| ==> rs[k]
  {
    if n > 0 {
      TrailingRow(rs[..|rs| - 1], n - 1);
    }
  }

  lemma DeciderCount(s: State, t: Thread)
    requires Inv(s) && t in s.pcs && s.pcs[t].Decide?
    ensures s.count == Trailing(s.released) <= MAX_HAND_OVER && s.pcs[t].ticket == |s.released|
  {
    assert s.released[..|s.released|] == s.released;
    hide Flags, Promises, Acquires;
    assert Stage(s) == s.pcs[t];
  }

  /** In every interleaving a release hands over exactly if somebody waited when it loaded the word and the
      eight releases before have not all handed over; `released` and the next acquire say so later. */
  lemma ReleaseDecides(run: seq<State>, steps: seq<Step>, t: Thread, l: nat, m: nat, j: nat)
    requires Run(run, steps) && l < m < |steps| && m < j < |run|
    requires steps[l] == LoadWord(t) && steps[m] == LoadCount(t) && forall x :: l < x < m ==> steps[x].t != t
    ensures var k := |run[m].released|;
      var hands := run[l].next > k + 1 && !EightInARow(run[m].released);
      && (k < |run[j].released| ==> (run[j].released[k] <==> hands))
      && (k + 1 < |run[j].acquired| ==> (run[j].acquired[k + 1] <==> hands))
  {
    hide Inv, Init, Next, EightInARow;
    var k := |run[m].released|;
    OwnStep(run[l], steps[l], run[l + 1]);
    WhileOthersMove(run, steps, l + 1, m, t);
    OwnStep(run[m], steps[m], run[m + 1]);
    RunInv(run, steps, l);
    HolderTicket(run[l], t);
    RunInv(run, steps, m);
    DeciderCount(run[m], t);
    RowIsCount(run[m].released);
    if run[m + 1].pcs[t] == Hand0(k) {
      PromiseIsKept(run, steps, m + 1, j, t, k);
    } else {
      PassIsKept(run, steps, m + 1, j, t, k);
    }
    RunInv(run, steps, j);
    if k + 1 < |run[j].acquired| {
      AcquireFollowsRelease(run[j], k);
    }
  }

  lemma RowIsCount(rs: seq<bool>)
    requires Trailing(rs) <= 8
    ensures EightInARow(rs) <==> Trailing(rs) == 8
  {
    if EightInARow(rs) {
      TrailingRun(rs, 8);
    }
    TrailingRow(rs, Trailing(rs));
  }

  /** How many steps the thread whose ticket is served needs at most until it has released. */
  function ToGo(pc: Pc): nat {
    match pc
    case Out => 0
    case Wait(_) => 8
    case Turn(_) => 7
    case FlagRead(_, _) => 6
    case Hold(_, _) => 5
    case Check(_, _, _) => 6
    case Decide(_, _, _) => 4
    case Hand0(_) => 3
    case Hand1(_) => 2
    case Hand2(_) => 1
    case Pass0(_) => 2
    case Pass1(_) => 1
  }

  lemma OneInwards(s: State, t: Thread) returns (step: Step, s': State)
    requires t in s.pcs && s.pcs[t].Entering() && (s.pcs[t].Wait? ==> s.pcs[t].ticket == s.serving)
      && |s.flags| == SLOTS
    ensures Next(s, step, s') && step.t == t && t in s'.pcs && ToGo(s'.pcs[t]) < ToGo(s.pcs[t]) && s'.next == s.next
    ensures !s'.pcs[t].Out? && s'.serving == s.serving
  {
    match s.pcs[t]
    case Wait(k) => step, s' := See(t), Goto(s, t, Turn(k));
    case Turn(k) => step, s' := ReadFlag(t), Goto(s, t, FlagRead(k, s.flags[k % SLOTS]));
    case FlagRead(k, handed) =>
      step, s' := ClearFlag(t), Goto(s, t, Hold(k, false)).(flags := s.flags[k % SLOTS := false],
        acquired := s.acquired + [handed], remote := s.remote || !handed);
  }

  lemma OneDecision(s: State, t: Thread) returns (step: Step, s': State)
    requires t in s.pcs && (s.pcs[t].Hold? || s.pcs[t].Check? || s.pcs[t].Decide?)
    ensures Next(s, step, s') && step.t == t && t in s'.pcs && ToGo(s'.pcs[t]) < ToGo(s.pcs[t]) && s'.next == s.next
    ensures !s'.pcs[t].Out? && s'.serving == s.serving
  {
    match s.pcs[t]
    case Hold(k, saw) => step, s' := LoadWord(t), Goto(s, t, Decide(k, saw, s.next - s.serving - 1 > 0));
    case Check(k, _, waiters) =>
      var can := waiters && s.count < MAX_HAND_OVER;
      step, s' := CheckCount(t), Goto(s, t, Hold(k, can)).(remote := s.remote && can);
    case Decide(k, _, waiters) =>
      step, s' := LoadCount(t), Goto(s, t, if waiters && s.count < MAX_HAND_OVER then Hand0(k) else Pass0(k));
  }

  lemma OneOutwards(s: State, t: Thread) returns (step: Step, s': State)
    requires t in s.pcs && !s.pcs[t].Out? && (Handing(s.pcs[t], s.pcs[t].ticket) || Passing(s.pcs[t], s.pcs[t].ticket))
    requires |s.flags| == SLOTS
    ensures Next(s, step, s') && step.t == t && t in s'.pcs && ToGo(s'.pcs[t]) < ToGo(s.pcs[t]) && s'.next == s.next
    ensures if s'.pcs[t].Out? then s'.serving == s.serving + 1 else s'.serving == s.serving
  {
    match s.pcs[t]
    case Hand0(k) => step, s' := SetFlag(t), Goto(s, t, Hand1(k)).(flags := s.flags[(s.serving + 1) % SLOTS := true]);
    case Hand1(k) => step, s' := Increment(t), Goto(s, t, Hand2(k)).(count := s.count + 1);
    case Hand2(_) =>
      step, s' := HandOver(t), Goto(s, t, Out).(serving := s.serving + 1, released := s.released + [true]);
    case Pass0(k) => step, s' := Reset(t), Goto(s, t, Pass1(k)).(count := 0);
    case Pass1(_) =>
      step := Pass(t);
      s' := Goto(s, t, Out).(serving := s.serving + 1, released := s.released + [false], remote := false);
  }

  lemma OneOnwards(s: State, t: Thread) returns (step: Step, s': State)
    requires t in s.pcs && !s.pcs[t].Out? && (s.pcs[t].Wait? ==> s.pcs[t].ticket == s.serving) && |s.flags| == SLOTS
    ensures Next(s, step, s') && step.t == t && t in s'.pcs && ToGo(s'.pcs[t]) < ToGo(s.pcs[t]) && s'.next == s.next
    ensures if s'.pcs[t].Out? then s'.serving == s.serving + 1 else s'.serving == s.serving
  {
    hide Next, ToGo;
    var pc := s.pcs[t];
    if pc.Entering() {
      step, s' := OneInwards(s, t);
    } else if pc.Hold? || pc.Check? || pc.Decide? {
      step, s' := OneDecision(s, t);
    } else {
      step, s' := OneOutwards(s, t);
    }
  }

  lemma ServedIsThere(s: State, t: Thread)
    requires Inv(s) && t in s.pcs && !s.pcs[t].Out? && s.pcs[t].ticket == s.serving
    ensures |s.flags| == SLOTS && s.serving < s.next
  {
  }

  lemma SameTicket(s: State, step: Step, s': State, t: Thread)
    requires Inv(s) && Next(s, step, s') && step.t == t && t in s.pcs && !s.pcs[t].Out? && t in s'.pcs
    ensures s'.pcs[t].Out? || s'.pcs[t].ticket == s.pcs[t].ticket
  {
  }

  /** The thread whose ticket is served gets through `acquire` and `release` by its own steps. */
  lemma {:induction false} GoesThrough(s: State, t: Thread) returns (run: seq<State>, steps: seq<Step>, s': State)
    requires Inv(s) && t in s.pcs && !s.pcs[t].Out? && s.pcs[t].ticket == s.serving
    ensures Leads(s, run, steps, s') && Inv(s') && |steps| <= ToGo(s.pcs[t])
    ensures s'.serving == s.serving + 1 && s'.next == s.next
    decreases ToGo(s.pcs[t])
  {
    hide Next, Inv;
    ServedIsThere(s, t);
    var step, next := OneOnwards(s, t);
    NextKeepsInv(s, step, next);
    SameTicket(s, step, next, t);
    run, steps, s' := [s, next], [step], next;
    if !next.pcs[t].Out? {
      var r, q;
      r, q, s' := GoesThrough(next, t);
      Then(s, run, steps, next, r, q, s');
      run, steps := run + r[1..], steps + q;
    }
  }

  lemma Served(s: State) returns (t: Thread)
    requires Inv(s) && s.serving < s.next
    ensures t in s.pcs && !s.pcs[t].Out? && s.pcs[t].ticket == s.serving
  {
    assert Outstanding(s, s.serving);
    t := s.owner[s.serving];
  }

  lemma {:induction false} AllGoThrough(s: State, k: nat) returns (run: seq<State>, steps: seq<Step>, s': State)
    requires Inv(s) && s.serving <= k <= s.next
    ensures Leads(s, run, steps, s') && s'.serving == k && s'.next == s.next && |steps| <= 8 * (k - s.serving)
    decreases k - s.serving
  {
    hide Next, Inv;
    run, steps, s' := [s], [], s;
    if s.serving < k {
      var t := Served(s);
      run, steps, s' := GoesThrough(s, t);
      var next := s';
      var r, q;
      r, q, s' := AllGoThrough(next, k);
      Then(s, run, steps, next, r, q, s');
      run, steps := run + r[1..], steps + q;
    }
  }

  /** At every moment of every run the lock can go on: each outstanding ticket is reached within eight steps
      for each ticket before it. */
  lemma EveryTicketIsServed(run: seq<State>, steps: seq<Step>, i: nat, k: nat)
      returns (rest: seq<State>, more: seq<Step>, s': State)
    requires Run(run, steps) && i < |run| && run[i].serving <= k <= run[i].next
    ensures Leads(run[i], rest, more, s') && s'.serving == k && s'.next == run[i].next
    ensures |more| <= 8 * (k - run[i].serving)
  {
    RunInv(run, steps, i);
    rest, more, s' := AllGoThrough(run[i], k);
  }

  /** Below 2^32 tickets a thread without one can always draw the next one, and it joins the queue behind all
      others. */
  lemma AnyoneMayDraw(run: seq<State>, steps: seq<Step>, i: nat, t: Thread) returns (s': State)
    requires Run(run, steps) && i < |run| && t in run[i].pcs && run[i].pcs[t].Out?
    requires run[i].next < 0xFFFF_FFFF
    ensures Next(run[i], Draw(t), s') && TicketsOut(s') == TicketsOut(run[i]) + {run[i].next}
    ensures s'.owner == run[i].owner + [t] && s'.serving == run[i].serving
  {
    var s := run[i];
    s' := Goto(s, t, Wait(s.next)).(next := s.next + 1, owner := s.owner + [t]);
    TicketsAfter(s, s', t, s.next);
  }

  lemma TicketsAfter(s: State, s': State, t: Thread, k: nat)
    requires t in s.pcs && s.pcs[t].Out? && s'.pcs == s.pcs[t := Wait(k)]
    ensures TicketsOut(s') == TicketsOut(s) + {k}
  {
    forall j | j in TicketsOut(s)
      ensures j in TicketsOut(s')
    {
      var u :| u in s.pcs && !s.pcs[u].Out? && s.pcs[u].ticket == j;
      assert s'.pcs[u] == s.pcs[u];
    }
    assert s'.pcs[t].ticket == k;
  }
}
