/** Epoch-based reclamation of cache entries: a step system of any number of threads over the
    skip list, the retired queue, the global epoch and the published epochs.  The skip list is a
    set with atomic insert and erase-once; the queue is a bag. */
module EpochReclaim {
  import opened Fresh

  type Thread = nat
  type Slot = nat
  type Epoch = nat

  /** Slots that one reclaim dequeues at most. */
  const BUDGET := 64

  /** Where the entry slot is.  A slot leaves the list once per insertion and the queue once per
      enqueue, so it is in one place at a time. */
  datatype Place =
    | Free                              // in the slab
    | Fresh                             // handed out, not yet in the list
    | Linked                            // in the list
    | Unlinked                          // erased from the list, retire epoch not yet stamped
    | Retiring(stamp: Epoch)            // stamped, not yet in the queue
    | Queued(stamp: Epoch)              // in the queue
    | Batch(owner: Thread, stamp: Epoch) // dequeued by a reclaiming thread

  datatype MinEpoch = Infinite | Finite(value: Epoch)

  /** `refs` are the entries a thread has reached inside its current guard. */
  datatype Pc =
    | Out
    | Loaded(e: Epoch)                                        // global epoch loaded, not published
    | Inside(refs: set<Slot>)
    | Erased(refs: set<Slot>, slot: Slot)
    | Stamped(refs: set<Slot>, slot: Slot)
    | Draining(refs: set<Slot>, count: nat)                   // has dequeued so many slots
    | Scanning(refs: set<Slot>, left: set<Thread>, min: MinEpoch)
    | Deciding(refs: set<Slot>, limit: Epoch, again: bool)    // `again`: has put a slot back
  {
    predicate Retires() { Erased? || Stamped? }
    predicate Reclaims() { Draining? || Scanning? || Deciding? }
    function Refs(): set<Slot> { if Out? || Loaded? then {} else refs }
  }

  datatype State = State(epoch: Epoch, published: map<Thread, Epoch>, place: map<Slot, Place>, pcs: map<Thread, Pc>)

  datatype Step =
    | Register(t: Thread)
    | LoadEpoch(t: Thread)
    | Publish(t: Thread)
    | Reach(t: Thread, slot: Slot)
    | Leave(t: Thread)
    | Alloc(t: Thread, slot: Slot)
    | Link(t: Thread, slot: Slot)
    | Erase(t: Thread, slot: Slot)
    | Stamp(t: Thread)
    | Enqueue(t: Thread)
    | StartReclaim(t: Thread)
    | Dequeue(t: Thread, slot: Slot)
    | NoneQueued(t: Thread)
    | StartScan(t: Thread)
    | Scan(t: Thread, other: Thread)
    | EndScan(t: Thread)
    | FreeSlot(t: Thread, slot: Slot)
    | Requeue(t: Thread, slot: Slot)
    | EndReclaim(t: Thread)

  function Goto(s: State, t: Thread, pc: Pc): State {
    s.(pcs := s.pcs[t := pc])
  }

  function Move(s: State, x: Slot, p: Place): State {
    s.(place := s.place[x := p])
  }

  function Lower(min: MinEpoch, e: Epoch): MinEpoch {
    if e != 0 && (min.Infinite? || e < min.value) then Finite(e) else min
  }

  ghost predicate Next(s: State, step: Step, s': State) {
    if step.Register? then
      && step.t !in s.published && step.t !in s.pcs
      && s' == s.(published := s.published[step.t := 0], pcs := s.pcs[step.t := Out])
    else
      && step.t in s.pcs
      && var pc := s.pcs[step.t];
      match step
      case Register(t) => false
      case LoadEpoch(t) => pc.Out? && s' == Goto(s, t, Loaded(s.epoch))
      case Publish(t) => pc.Loaded? && s' == Goto(s, t, Inside({})).(published := s.published[t := pc.e])
      case Reach(t, x) => pc.Inside? && x in s.place && s.place[x].Linked? && s' == Goto(s, t, Inside(pc.refs + {x}))
      case Leave(t) => pc.Inside? && s' == Goto(s, t, Out).(published := s.published[t := 0])
      case Alloc(t, x) => pc.Inside? && x in s.place && s.place[x].Free? && s' == Move(s, x, Fresh)
      case Link(t, x) => pc.Inside? && x in s.place && s.place[x].Fresh? && s' == Move(s, x, Linked)
      case Erase(t, x) => pc.Inside? && x in s.place && s.place[x].Linked?
                          && s' == Move(Goto(s, t, Erased(pc.refs, x)), x, Unlinked)
      case Stamp(t) => pc.Erased? && s' == Move(Goto(s, t, Stamped(pc.refs, pc.slot)), pc.slot, Retiring(s.epoch))
      case Enqueue(t) =>
        && pc.Stamped? && pc.slot in s.place && s.place[pc.slot].Retiring?
        && s' == Move(Goto(s, t, Inside(pc.refs)), pc.slot, Queued(s.place[pc.slot].stamp))
      case StartReclaim(t) => pc.Inside? && s' == Goto(s, t, Draining(pc.refs, 0))
      case Dequeue(t, x) =>
        && pc.Draining? && pc.count < BUDGET && x in s.place && s.place[x].Queued?
        && s' == Move(Goto(s, t, Draining(pc.refs, pc.count + 1)), x, Batch(t, s.place[x].stamp))
      case NoneQueued(t) => pc.Draining? && pc.count == 0 && s' == Goto(s, t, Inside(pc.refs))
      case StartScan(t) =>
        pc.Draining? && pc.count > 0 && s' == Goto(s, t, Scanning(pc.refs, s.published.Keys, Infinite))
      case Scan(t, u) =>
        && pc.Scanning? && u in pc.left && u in s.published
        && s' == Goto(s, t, Scanning(pc.refs, pc.left - {u}, Lower(pc.min, s.published[u])))
      case EndScan(t) =>
        && pc.Scanning? && pc.left == {}
        && s' == Goto(s, t, Deciding(pc.refs, if pc.min.Infinite? then s.epoch else pc.min.value, false))
      case FreeSlot(t, x) =>
        && pc.Deciding? && x in s.place && s.place[x].Batch? && s.place[x].owner == t && s.place[x].stamp < pc.limit
        && s' == Move(s, x, Free)
      case Requeue(t, x) =>
        && pc.Deciding? && x in s.place && s.place[x].Batch? && s.place[x].owner == t && s.place[x].stamp >= pc.limit
        && s' == Move(Goto(s, t, Deciding(pc.refs, pc.limit, true)), x, Queued(s.place[x].stamp))
      case EndReclaim(t) =>
        && pc.Deciding? && (forall x :: x in s.place ==> !(s.place[x].Batch? && s.place[x].owner == t))
        && s' == Goto(s, t, Inside(pc.refs)).(epoch := if pc.again then s.epoch + 1 else s.epoch)
  }

  ghost predicate Init(s: State) {
    && s.epoch == 1 && s.published == map[] && s.pcs == map[]
    && forall x :: x in s.place ==> s.place[x] == Free
  }

  // ---- The invariant ------------------------------------------------------------------------

  /** Published epochs are not in the future; a thread that has reached an entry has published. */
  ghost predicate Published(s: State) {
    && s.epoch >= 1 && s.pcs.Keys == s.published.Keys
    && (forall t :: t in s.published ==> s.published[t] <= s.epoch)
    && (forall t :: t in s.pcs && s.pcs[t].Loaded? ==> 1 <= s.pcs[t].e <= s.epoch)
    && (forall t :: t in s.pcs && !s.pcs[t].Out? && !s.pcs[t].Loaded? ==> s.published[t] >= 1)
  }

  ghost predicate RetiresRightly(s: State, t: Thread)
    requires t in s.pcs && s.pcs[t].Retires()
  {
    && s.pcs[t].slot in s.place
    && (if s.pcs[t].Erased? then s.place[s.pcs[t].slot].Unlinked? else s.place[s.pcs[t].slot].Retiring?)
  }

  /** A thread that retires a slot is the only one to do so. */
  ghost predicate Retirers(s: State) {
    && (forall t :: t in s.pcs && s.pcs[t].Retires() ==> RetiresRightly(s, t))
    && (forall t, u :: t in s.pcs && u in s.pcs && t != u && s.pcs[t].Retires() && s.pcs[u].Retires()
                       ==> s.pcs[t].slot != s.pcs[u].slot)
  }

  /** A dequeued slot belongs to a thread that reclaims. */
  ghost predicate Batches(s: State) {
    forall x :: x in s.place && s.place[x].Batch? ==>
      && s.place[x].owner in s.pcs && s.pcs[s.place[x].owner].Reclaims()
      && (s.pcs[s.place[x].owner].Draining? ==> s.pcs[s.place[x].owner].count > 0)
  }

  /** The reclaiming thread at `pc` has not yet asked `u`, or knows a minimum not above `e`. */
  ghost predicate Respects(pc: Pc, u: Thread, e: Epoch) {
    && (pc.Scanning? ==> u in pc.left || (pc.min.Finite? && pc.min.value <= e))
    && (pc.Deciding? ==> pc.limit <= e)
  }

  /** An entry that thread `u` has reached in its guard, published at epoch `e`, is not free; once
      stamped, its stamp is at least `e`; and a thread that may free it will respect `e`. */
  ghost predicate RefOk(s: State, u: Thread, x: Slot)
    requires u in s.published
  {
    && x in s.place
    && var e := s.published[u]; var p := s.place[x];
    && !p.Free? && !p.Fresh?
    && (p.Retiring? || p.Queued? || p.Batch? ==> e <= p.stamp)
    && (p.Batch? && p.owner in s.pcs ==> Respects(s.pcs[p.owner], u, e))
  }

  ghost predicate Refs(s: State)
    requires s.pcs.Keys == s.published.Keys
  {
    forall u, x :: u in s.pcs && x in s.pcs[u].Refs() ==> RefOk(s, u, x)
  }

  ghost predicate Inv(s: State) {
    Published(s) && Retirers(s) && Batches(s) && Refs(s)
  }

  lemma InitInv(s: State)
    requires Init(s)
    ensures Inv(s)
  {
  }

  lemma PublishedKept(s: State, step: Step, s': State)
    requires Inv(s) && Next(s, step, s')
    ensures Published(s')
  {
    hide Retirers, Batches, Refs;
    Effect(s, step, s');
    OwnPublished(s, step, s');
    OwnEpoch(s, step, s');
    hide Next;
    assert s'.pcs.Keys == s'.published.Keys;
  }

  /** What a step can change at all. */
  lemma Effect(s: State, step: Step, s': State)
    requires Next(s, step, s')
    ensures step.t in s'.pcs && s'.pcs == s.pcs[step.t := s'.pcs[step.t]] && s'.epoch >= s.epoch
    ensures !step.Register? ==> step.t in s.pcs
    ensures step.Register? ==> step.t !in s.pcs && s'.pcs[step.t] == Out && s'.published == s.published[step.t := 0]
    ensures step.Publish? ==>
      step.t in s.pcs && s.pcs[step.t].Loaded? && s'.published == s.published[step.t := s.pcs[step.t].e]
    ensures step.Leave? ==> s'.published == s.published[step.t := 0] && s'.pcs[step.t].Out?
    ensures !step.Register? && !step.Publish? && !step.Leave? ==> s'.published == s.published
    ensures MovesThread(step) ==> s'.place == s.place
    ensures step.t in s.pcs && step.Reach? ==> s'.pcs[step.t].Refs() == s.pcs[step.t].Refs() + {step.slot}
    ensures step.t in s.pcs && !step.Reach? && !step.Leave? ==> s'.pcs[step.t].Refs() == s.pcs[step.t].Refs()
    ensures step.Leave? || step.Register? ==> s'.pcs[step.t].Refs() == {}
  {
  }

  lemma OwnPublished(s: State, step: Step, s': State)
    requires Published(s) && Next(s, step, s')
    ensures step.t in s'.pcs && step.t in s'.published && s'.published[step.t] <= s'.epoch
    ensures s'.pcs.Keys == s'.published.Keys
  {
    Effect(s, step, s');
    hide Next;
  }

  /** Who has loaded an epoch afterwards has just loaded it. */
  lemma OwnLoaded(s: State, step: Step, s': State)
    requires Next(s, step, s') && step.t in s'.pcs && s'.pcs[step.t].Loaded?
    ensures s'.pcs[step.t].e == s.epoch == s'.epoch
  {
  }

  /** Who is inside afterwards has just published, or was inside before. */
  lemma OwnInside(s: State, step: Step, s': State)
    requires Next(s, step, s') && step.t in s'.pcs && !s'.pcs[step.t].Out? && !s'.pcs[step.t].Loaded?
    ensures step.t in s.pcs && !step.Register? && !step.Leave?
    ensures step.Publish? || (!s.pcs[step.t].Out? && !s.pcs[step.t].Loaded?)
  {
  }

  lemma OwnEpoch(s: State, step: Step, s': State)
    requires Published(s) && Next(s, step, s')
    ensures step.t in s'.pcs && step.t in s'.published
    ensures s'.pcs[step.t].Loaded? ==> 1 <= s'.pcs[step.t].e <= s'.epoch
    ensures !s'.pcs[step.t].Out? && !s'.pcs[step.t].Loaded? ==> s'.published[step.t] >= 1
  {
    OwnPublished(s, step, s');
    Effect(s, step, s');
    if s'.pcs[step.t].Loaded? {
      OwnLoaded(s, step, s');
    }
    if !s'.pcs[step.t].Out? && !s'.pcs[step.t].Loaded? {
      OwnInside(s, step, s');
    }
    hide Next;
  }

  lemma RetirersKept(s: State, step: Step, s': State)
    requires Inv(s) && Next(s, step, s')
    ensures Retirers(s')
  {
    hide Refs, Batches, Published, Next, RetiresRightly;
    Effect(s, step, s');
    OwnRetire(s, step, s');
    forall t | t in s.pcs && t != step.t && s.pcs[t].Retires()
      ensures t in s'.pcs && s'.pcs[t] == s.pcs[t] && RetiresRightly(s', t)
      ensures s'.pcs[step.t].Retires() ==> s'.pcs[step.t].slot != s.pcs[t].slot
    {
      OtherRetires(s, step, s', t);
    }
  }

  lemma OwnRetire(s: State, step: Step, s': State)
    requires Retirers(s) && Next(s, step, s')
    ensures step.t in s'.pcs && (s'.pcs[step.t].Retires() ==> RetiresRightly(s', step.t))
  {
  }

  lemma OtherRetires(s: State, step: Step, s': State, t: Thread)
    requires Retirers(s) && Next(s, step, s') && t in s.pcs && t != step.t && s.pcs[t].Retires()
    ensures t in s'.pcs && s'.pcs[t] == s.pcs[t] && RetiresRightly(s', t)
    ensures step.t in s'.pcs && (s'.pcs[step.t].Retires() ==> s'.pcs[step.t].slot != s.pcs[t].slot)
  {
    assert RetiresRightly(s, t);
    assert step.t in s.pcs && s.pcs[step.t].Retires() ==> s.pcs[step.t].slot != s.pcs[t].slot;
    hide Retirers;
  }

  lemma BatchesKept(s: State, step: Step, s': State)
    requires Inv(s) && Next(s, step, s')
    ensures Batches(s')
  {
    hide Refs, Retirers, Published;
  }

  /** A step that leaves every place alone, or moves a slot the thread does not refer to. */
  predicate MovesThread(step: Step) {
    step.Register? || step.LoadEpoch? || step.Publish? || step.Reach? || step.Leave? || step.StartReclaim?
  }

  predicate MovesSlot(step: Step) {
    step.Alloc? || step.Link? || step.Erase? || step.Stamp? || step.Enqueue? || step.Dequeue?
  }

  lemma RefNew(s: State, step: Step, s': State, u: Thread, x: Slot)
    requires Inv(s) && Next(s, step, s') && Published(s') && u in s'.pcs && x in s'.pcs[u].Refs()
    requires !(u in s.pcs && x in s.pcs[u].Refs())
    ensures RefOk(s', u, x)
  {
    Effect(s, step, s');
    hide Retirers, Batches, Refs, Published;
    assert step.Reach? && step.t == u && step.slot == x;
  }

  lemma RefThreadMoves(s: State, step: Step, s': State, u: Thread, x: Slot)
    requires Inv(s) && Next(s, step, s') && Published(s') && u in s'.pcs && x in s'.pcs[u].Refs() && MovesThread(step)
    requires u in s.pcs && x in s.pcs[u].Refs()
    ensures RefOk(s', u, x)
  {
    assert RefOk(s, u, x);
    Effect(s, step, s');
    var p := s.place[x];
    assert p.Batch? ==> p.owner in s.pcs && s.pcs[p.owner].Reclaims();
    MoversDoNotReclaim(s, step, s');
    hide Next, Retirers, Refs, Batches, Published;
  }

  lemma MoversDoNotReclaim(s: State, step: Step, s': State)
    requires Next(s, step, s') && MovesThread(step)
    ensures step.t in s.pcs ==> !s.pcs[step.t].Reclaims()
  {
  }

  lemma RefSlotMoves(s: State, step: Step, s': State, u: Thread, x: Slot)
    requires Inv(s) && Next(s, step, s') && Published(s') && u in s'.pcs && x in s'.pcs[u].Refs() && MovesSlot(step)
    requires u in s.pcs && x in s.pcs[u].Refs()
    ensures RefOk(s', u, x)
  {
    assert RefOk(s, u, x);
    assert s.published[u] <= s.epoch;
    SlotEffect(s, step, s', x);
    hide Next, Refs, Published, Retirers, Batches;
  }

  /** The life of a slot, and who reclaims, in a step that moves a slot. */
  lemma SlotEffect(s: State, step: Step, s': State, x: Slot)
    requires Retirers(s) && Next(s, step, s') && MovesSlot(step) && x in s.place
    ensures s'.published == s.published && x in s'.place
    ensures var p, q := s.place[x], s'.place[x];
      || q == p || (p.Free? && q.Fresh?) || (p.Fresh? && q.Linked?) || (p.Linked? && q.Unlinked?)
      || (p.Unlinked? && q == Retiring(s.epoch)) || (p.Retiring? && q == Queued(p.stamp))
      || (p.Queued? && q == Batch(step.t, p.stamp) && step.t in s'.pcs && s'.pcs[step.t].Draining?)
    ensures forall o :: o in s'.pcs ==>
      o in s.pcs && (s'.pcs[o] == s.pcs[o] || !s'.pcs[o].Reclaims() || s'.pcs[o].Draining?)
  {
    assert step.t in s.pcs && (s.pcs[step.t].Retires() ==> RetiresRightly(s, step.t));
    hide Retirers;
  }

  lemma RefReclaimMoves(s: State, step: Step, s': State, u: Thread, x: Slot)
    requires Inv(s) && Next(s, step, s') && Published(s') && u in s'.pcs && x in s'.pcs[u].Refs()
    requires !MovesThread(step) && !MovesSlot(step) && u in s.pcs && x in s.pcs[u].Refs()
    ensures RefOk(s', u, x)
  {
    assert RefOk(s, u, x);
    hide Refs, Retirers;
    assert s'.published == s.published;
  }

  /** The heart of the argument, one reference at a time. */
  lemma RefKept(s: State, step: Step, s': State, u: Thread, x: Slot)
    requires Inv(s) && Next(s, step, s') && Published(s') && u in s'.pcs && x in s'.pcs[u].Refs()
    ensures RefOk(s', u, x)
  {
    hide Inv, Next, RefOk;
    if !(u in s.pcs && x in s.pcs[u].Refs()) {
      RefNew(s, step, s', u, x);
    } else if MovesThread(step) {
      RefThreadMoves(s, step, s', u, x);
    } else if MovesSlot(step) {
      RefSlotMoves(s, step, s', u, x);
    } else {
      RefReclaimMoves(s, step, s', u, x);
    }
  }

  lemma NextKeepsInv(s: State, step: Step, s': State)
    requires Inv(s) && Next(s, step, s')
    ensures Inv(s')
  {
    PublishedKept(s, step, s');
    RetirersKept(s, step, s');
    BatchesKept(s, step, s');
    hide Next, RefOk, Retirers, Batches;
    forall u, x | u in s'.pcs && x in s'.pcs[u].Refs()
      ensures RefOk(s', u, x)
    {
      RefKept(s, step, s', u, x);
    }
  }

  // ---- Whole runs -----------------------------------------------------------------------------

  ghost predicate Run(run: seq<State>, steps: seq<Step>) {
    && |run| == |steps| + 1 && Init(run[0])
    && forall i :: 0 <= i < |steps| ==> Next(run[i], steps[i], run[i + 1])
  }

  lemma {:induction false} RunInv(run: seq<State>, steps: seq<Step>, i: nat)
    requires Run(run, steps) && i < |run|
    ensures Inv(run[i])
  {
    hide Inv, Next, Init;
    if i == 0 {
      InitInv(run[0]);
    } else {
      RunInv(run, steps, i - 1);
      NextKeepsInv(run[i - 1], steps[i - 1], run[i]);
    }
  }

  /** In every interleaving, a slot is freed only when no thread is still inside a guard in which
      it reached the entry. */
  lemma FreedSlotIsUnreferenced(run: seq<State>, steps: seq<Step>, i: nat, u: Thread)
    requires Run(run, steps) && i < |steps| && steps[i].FreeSlot? && u in run[i].pcs
    ensures steps[i].slot !in run[i].pcs[u].Refs()
  {
    RunInv(run, steps, i);
    var s := run[i];
    assert Next(s, steps[i], run[i + 1]);
    assert steps[i].slot in s.pcs[u].Refs() ==> RefOk(s, u, steps[i].slot);
  }

  /** So an entry that a thread has reached stays allocated until the thread leaves its guard. */
  lemma ReachedStaysAllocated(run: seq<State>, steps: seq<Step>, i: nat, u: Thread, x: Slot)
    requires Run(run, steps) && i < |run| && u in run[i].pcs && x in run[i].pcs[u].Refs()
    ensures x in run[i].place && !run[i].place[x].Free? && !run[i].place[x].Fresh?
  {
    RunInv(run, steps, i);
    assert RefOk(run[i], u, x);
  }

  // ---- What a reclaim does ----------------------------------------------------------------------

  /** Step `k` reads a published epoch in the scan that thread `t` has begun at step `a`. */
  ghost predicate ReadAt(run: seq<State>, steps: seq<Step>, t: Thread, a: nat, i: nat, k: nat) {
    && a < k < i <= |steps| && |run| == |steps| + 1
    && steps[k].Scan? && steps[k].t == t && steps[k].other in run[k].published
  }

  ghost function EpochRead(run: seq<State>, steps: seq<Step>, k: nat): Epoch {
    if k < |steps| < |run| && steps[k].Scan? && steps[k].other in run[k].published then
      run[k].published[steps[k].other]
    else 0
  }

  /** `e` is not above any epoch read, but for the zeros of threads outside. */
  ghost predicate NotAbove(run: seq<State>, steps: seq<Step>, t: Thread, a: nat, i: nat, e: Epoch) {
    forall k: nat :: ReadAt(run, steps, t, a, i, k) ==> EpochRead(run, steps, k) == 0 || e <= EpochRead(run, steps, k)
  }

  ghost predicate WasRead(run: seq<State>, steps: seq<Step>, t: Thread, a: nat, i: nat, e: Epoch) {
    exists k: nat :: ReadAt(run, steps, t, a, i, k) && EpochRead(run, steps, k) == e
  }

  /** Thread `u` was asked. */
  ghost predicate Asked(run: seq<State>, steps: seq<Step>, t: Thread, a: nat, i: nat, u: Thread) {
    exists k: nat :: ReadAt(run, steps, t, a, i, k) && steps[k].other == u
  }

  /** A scan of thread `t`, from its step `a` to its step `b`. */
  ghost predicate Scans(run: seq<State>, steps: seq<Step>, t: Thread, a: nat, b: nat) {
    && Run(run, steps) && a < b < |steps| && steps[a] == StartScan(t) && steps[b] == EndScan(t)
    && forall m :: a < m < b ==> steps[m] != EndScan(t)
  }

  /** Half-way: the threads no longer left were asked, and `min` is the least epoch they had published. */
  ghost predicate ScanState(run: seq<State>, steps: seq<Step>, t: Thread, a: nat, i: nat) {
    && a < i < |run| && t in run[i].pcs && run[i].pcs[t].Scanning?
    && var pc := run[i].pcs[t];
    && (forall u :: u in run[a].published && u !in pc.left ==> Asked(run, steps, t, a, i, u))
    && Least(run, steps, t, a, i, pc.min)
  }

  lemma OwnScan(s: State, step: Step, s': State, t: Thread)
    requires Next(s, step, s') && t in s.pcs && s.pcs[t].Scanning? && step != EndScan(t)
    ensures t in s'.pcs && s'.pcs[t].Scanning?
    ensures if step.t == t then
              && step.Scan? && step.other in s.published && s'.pcs[t].left == s.pcs[t].left - {step.other}
              && s'.pcs[t].min == Lower(s.pcs[t].min, s.published[step.other])
            else s'.pcs[t] == s.pcs[t]
  {
  }

  lemma ReadsGrow(run: seq<State>, steps: seq<Step>, t: Thread, a: nat, i: nat)
    requires a < i < |steps| && |run| == |steps| + 1
    ensures forall k: nat :: ReadAt(run, steps, t, a, i + 1, k) <==>
      ReadAt(run, steps, t, a, i, k) || (k == i && ReadAt(run, steps, t, a, i + 1, i))
  {
  }

  lemma ScanStep(run: seq<State>, steps: seq<Step>, t: Thread, a: nat, i: nat)
    requires Run(run, steps) && i < |steps| && ScanState(run, steps, t, a, i) && steps[i] != EndScan(t)
    ensures ScanState(run, steps, t, a, i + 1)
  {
    assert Next(run[i], steps[i], run[i + 1]);
    hide Next, Run;
    OwnScan(run[i], steps[i], run[i + 1], t);
    ReadsGrow(run, steps, t, a, i);
    var pc, pc' := run[i].pcs[t], run[i + 1].pcs[t];
    forall u | u in run[a].published && u !in pc'.left
      ensures Asked(run, steps, t, a, i + 1, u)
    {
      if u !in pc.left {
        assert Asked(run, steps, t, a, i, u);
        var k: nat :| ReadAt(run, steps, t, a, i, k) && steps[k].other == u;
        assert ReadAt(run, steps, t, a, i + 1, k);
      } else {
        assert ReadAt(run, steps, t, a, i + 1, i);
      }
    }
    hide ReadAt, Asked;
    LeastStep(run, steps, t, a, i, pc, pc');
  }

  /** `min` is the least epoch read, if any was. */
  ghost predicate Least(run: seq<State>, steps: seq<Step>, t: Thread, a: nat, i: nat, min: MinEpoch) {
    if min.Finite? then
      min.value > 0 && NotAbove(run, steps, t, a, i, min.value) && WasRead(run, steps, t, a, i, min.value)
    else forall e :: NotAbove(run, steps, t, a, i, e)
  }

  lemma LeastStep(run: seq<State>, steps: seq<Step>, t: Thread, a: nat, i: nat, pc: Pc, pc': Pc)
    requires pc.Scanning? && pc'.Scanning? && Least(run, steps, t, a, i, pc.min)
    requires forall k: nat :: ReadAt(run, steps, t, a, i + 1, k) <==>
      ReadAt(run, steps, t, a, i, k) || (k == i && ReadAt(run, steps, t, a, i + 1, i))
    requires if ReadAt(run, steps, t, a, i + 1, i) then pc'.min == Lower(pc.min, EpochRead(run, steps, i))
             else pc'.min == pc.min
    ensures Least(run, steps, t, a, i + 1, pc'.min)
  {
    hide ReadAt, EpochRead;
    var j := i + 1;
    if pc'.min.Infinite? {
      forall e
        ensures NotAbove(run, steps, t, a, j, e)
      {
        assert NotAbove(run, steps, t, a, i, e);
      }
    } else {
      assert NotAbove(run, steps, t, a, i, pc'.min.value);
      if pc'.min == pc.min {
        var k: nat :| ReadAt(run, steps, t, a, i, k) && EpochRead(run, steps, k) == pc.min.value;
        assert ReadAt(run, steps, t, a, i + 1, k);
      } else {
        assert ReadAt(run, steps, t, a, i + 1, i);
      }
    }
  }

  lemma {:induction false} ScanGoes(run: seq<State>, steps: seq<Step>, t: Thread, a: nat, b: nat, i: nat)
    requires Scans(run, steps, t, a, b) && a < i <= b
    ensures ScanState(run, steps, t, a, i)
  {
    hide Next, Init, ScanState;
    if i == a + 1 {
      ScanBegins(run, steps, t, a);
    } else {
      ScanGoes(run, steps, t, a, b, i - 1);
      ScanStep(run, steps, t, a, i - 1);
    }
  }

  lemma ScanBegins(run: seq<State>, steps: seq<Step>, t: Thread, a: nat)
    requires Run(run, steps) && a < |steps| && steps[a] == StartScan(t)
    ensures ScanState(run, steps, t, a, a + 1)
  {
    assert Next(run[a], steps[a], run[a + 1]);
  }

  /** Whatever the others do meanwhile, a scan asks every thread registered at its start, and the limit it
      ends with is the least non-zero epoch that it has read; with none, it is the global epoch. */
  lemma ScanFindsLeast(run: seq<State>, steps: seq<Step>, t: Thread, a: nat, b: nat)
    requires Scans(run, steps, t, a, b)
    ensures forall u :: u in run[a].published ==> Asked(run, steps, t, a, b, u)
    ensures t in run[b + 1].pcs && run[b + 1].pcs[t].Deciding?
    ensures var limit := run[b + 1].pcs[t].limit;
      && NotAbove(run, steps, t, a, b, limit)
      && ((limit > 0 && WasRead(run, steps, t, a, b, limit))
          || (limit == run[b].epoch && forall e :: NotAbove(run, steps, t, a, b, e)))
  {
    ScanGoes(run, steps, t, a, b, b);
    assert Next(run[b], steps[b], run[b + 1]);
    hide Asked, NotAbove, WasRead, Run;
  }

  /** The decisions of thread `t` after the scan that ends at step `b`, up to the end of the reclaim at `j`. */
  ghost predicate Reclaims(run: seq<State>, steps: seq<Step>, t: Thread, b: nat, j: nat) {
    && Run(run, steps) && b < j < |steps| && steps[b] == EndScan(t) && steps[j] == EndReclaim(t)
    && t in run[b + 1].pcs && run[b + 1].pcs[t].Deciding?
    && forall m :: b < m < j ==> steps[m] != EndReclaim(t)
  }

  lemma OwnDecision(s: State, step: Step, s': State, t: Thread)
    requires Next(s, step, s') && t in s.pcs && s.pcs[t].Deciding? && step != EndReclaim(t)
    ensures t in s'.pcs && s'.pcs[t].Deciding? && s'.pcs[t].limit == s.pcs[t].limit
    ensures s'.pcs[t].again <==> s.pcs[t].again || (step.Requeue? && step.t == t)
  {
  }

  ghost predicate PutBack(steps: seq<Step>, t: Thread, b: nat, i: nat) {
    exists k :: b < k < i <= |steps| && steps[k].Requeue? && steps[k].t == t
  }

  lemma {:induction false} DecisionsGo(run: seq<State>, steps: seq<Step>, t: Thread, b: nat, j: nat, i: nat)
    requires Reclaims(run, steps, t, b, j) && b < i <= j
    ensures t in run[i].pcs && run[i].pcs[t].Deciding? && run[i].pcs[t].limit == run[b + 1].pcs[t].limit
    ensures run[i].pcs[t].again <==> PutBack(steps, t, b, i)
  {
    if i == b + 1 {
      assert Next(run[b], steps[b], run[b + 1]);
    } else {
      DecisionsGo(run, steps, t, b, j, i - 1);
      assert Next(run[i - 1], steps[i - 1], run[i]);
      OwnDecision(run[i - 1], steps[i - 1], run[i], t);
      if PutBack(steps, t, b, i - 1) {
        var k :| b < k < i - 1 <= |steps| && steps[k].Requeue? && steps[k].t == t;
        assert b < k < i;
      }
    }
  }

  /** What becomes of a dequeued slot under a limit. */
  function Fate(t: Thread, x: Slot, stamp: Epoch, limit: Epoch): (d: (Step, Place)) {
    if stamp < limit then (FreeSlot(t, x), Free) else (Requeue(t, x), Queued(stamp))
  }

  lemma BatchStep(s: State, step: Step, s': State, t: Thread, x: Slot, stamp: Epoch)
    requires Next(s, step, s') && x in s.place && s.place[x] == Batch(t, stamp) && Retirers(s)
    requires t in s.pcs && s.pcs[t].Deciding?
    ensures x in s'.place
    ensures s'.place[x] == Batch(t, stamp) || (step, s'.place[x]) == Fate(t, x, stamp, s.pcs[t].limit)
  {
    assert step.t in s.pcs && s.pcs[step.t].Retires() ==> RetiresRightly(s, step.t);
    hide Retirers;
  }

  lemma BatchMoves(run: seq<State>, steps: seq<Step>, t: Thread, b: nat, j: nat, i: nat, x: Slot, stamp: Epoch)
    requires Reclaims(run, steps, t, b, j) && b < i < j && x in run[i].place && run[i].place[x] == Batch(t, stamp)
    ensures x in run[i + 1].place
    ensures run[i + 1].place[x] == Batch(t, stamp)
            || (steps[i], run[i + 1].place[x]) == Fate(t, x, stamp, run[b + 1].pcs[t].limit)
  {
    hide Next, Inv, Fate;
    DecisionsGo(run, steps, t, b, j, i);
    RunInv(run, steps, i);
    InvRetirers(run[i]);
    BatchStep(run[i], steps[i], run[i + 1], t, x, stamp);
  }

  lemma InvRetirers(s: State)
    requires Inv(s)
    ensures Retirers(s)
  {
  }

  lemma NothingLeft(run: seq<State>, steps: seq<Step>, t: Thread, b: nat, j: nat, x: Slot)
    requires Reclaims(run, steps, t, b, j) && x in run[j].place
    ensures !(run[j].place[x].Batch? && run[j].place[x].owner == t)
  {
    DecisionsGo(run, steps, t, b, j, j);
    assert Next(run[j], steps[j], run[j + 1]);
  }

  /** In every interleaving, each slot that a reclaim has dequeued is freed if its stamp is below the limit,
      and otherwise put back into the queue with its stamp; until then nobody moves it. */
  lemma {:induction false} SlotMeetsItsFate(run: seq<State>, steps: seq<Step>, t: Thread, b: nat, j: nat, i: nat,
                                            x: Slot, stamp: Epoch) returns (k: nat)
    requires Reclaims(run, steps, t, b, j) && b < i <= j && x in run[i].place && run[i].place[x] == Batch(t, stamp)
    ensures i <= k < j && x in run[k].place && run[k].place[x] == Batch(t, stamp) && x in run[k + 1].place
    ensures (steps[k], run[k + 1].place[x]) == Fate(t, x, stamp, run[b + 1].pcs[t].limit)
    decreases j - i
  {
    hide Next, Init, Fate;
    if i == j {
      NothingLeft(run, steps, t, b, j, x);
    } else {
      BatchMoves(run, steps, t, b, j, i, x, stamp);
      if run[i + 1].place[x] == Batch(t, stamp) {
        k := SlotMeetsItsFate(run, steps, t, b, j, i + 1, x, stamp);
      } else {
        k := i;
      }
    }
  }

  /** The global epoch advances, by one, exactly if the reclaim has put a slot back. */
  lemma EpochAdvances(run: seq<State>, steps: seq<Step>, t: Thread, b: nat, j: nat)
    requires Reclaims(run, steps, t, b, j)
    ensures run[j + 1].epoch == run[j].epoch + if PutBack(steps, t, b, j) then 1 else 0
  {
    DecisionsGo(run, steps, t, b, j, j);
    assert Next(run[j], steps[j], run[j + 1]);
  }

  // ---- The budget ---------------------------------------------------------------------------------

  ghost function BatchOf(s: State, t: Thread): set<Slot> {
    set x | x in s.place && s.place[x].Batch? && s.place[x].owner == t
  }

  /** A thread that dequeues has as many slots as it has counted, and no thread has more than 64. */
  ghost predicate WithinBudget(s: State, t: Thread) {
    && |BatchOf(s, t)| <= BUDGET
    && (t in s.pcs && s.pcs[t].Draining? ==> |BatchOf(s, t)| == s.pcs[t].count)
  }

  /** A thread's batch grows by a dequeue of its own only, and shrinks only when it decides. */
  lemma BatchGrows(s: State, step: Step, s': State, t: Thread)
    requires Retirers(s) && Next(s, step, s')
    ensures forall x :: x in BatchOf(s', t) ==> x in BatchOf(s, t) || (step == Dequeue(t, x) && x !in BatchOf(s, t))
  {
    assert step.t in s.pcs && s.pcs[step.t].Retires() ==> RetiresRightly(s, step.t);
    hide Retirers;
  }

  lemma BatchShrinks(s: State, step: Step, s': State, t: Thread)
    requires Retirers(s) && Next(s, step, s')
    ensures forall x :: x in BatchOf(s, t) ==> x in BatchOf(s', t) || step == FreeSlot(t, x) || step == Requeue(t, x)
  {
    assert step.t in s.pcs && s.pcs[step.t].Retires() ==> RetiresRightly(s, step.t);
    hide Retirers;
  }

  lemma OwnCount(s: State, step: Step, s': State, t: Thread)
    requires Next(s, step, s') && t in s'.pcs && s'.pcs[t].Draining?
    ensures step.t == t || (t in s.pcs && s'.pcs[t] == s.pcs[t])
    ensures step.t == t ==> t in s.pcs && (step == StartReclaim(t) || step.Dequeue?)
    ensures step == StartReclaim(t) ==> s.pcs[t].Inside? && s'.pcs[t].count == 0
    ensures step.t == t && step.Dequeue? ==>
      && s.pcs[t].Draining? && s.pcs[t].count < BUDGET && s'.pcs[t].count == s.pcs[t].count + 1
      && step.slot !in BatchOf(s, t)
  {
  }

  lemma DequeueHasRoom(s: State, step: Step, s': State)
    requires Next(s, step, s') && step.Dequeue?
    ensures step.t in s'.pcs && s'.pcs[step.t].Draining? && step.slot in BatchOf(s', step.t)
  {
  }

  lemma BudgetKept(s: State, step: Step, s': State, t: Thread)
    requires Inv(s) && Next(s, step, s') && WithinBudget(s, t)
    ensures WithinBudget(s', t)
  {
    hide Next, Inv, BatchOf, Retirers;
    InvRetirers(s);
    BatchGrows(s, step, s', t);
    if step.t == t && step.Dequeue? {
      BatchShrinks(s, step, s', t);
      DequeueHasRoom(s, step, s');
      OwnCount(s, step, s', t);
      assert BatchOf(s', t) == BatchOf(s, t) + {step.slot};
    } else {
      Smaller(BatchOf(s', t), BatchOf(s, t));
      if t in s'.pcs && s'.pcs[t].Draining? {
        CountStays(s, step, s', t);
      }
    }
  }

  lemma CountStays(s: State, step: Step, s': State, t: Thread)
    requires Inv(s) && Next(s, step, s') && WithinBudget(s, t) && !(step.t == t && step.Dequeue?)
    requires t in s'.pcs && s'.pcs[t].Draining? && BatchOf(s', t) <= BatchOf(s, t)
    ensures |BatchOf(s', t)| == s'.pcs[t].count
  {
    hide Next, Inv, BatchOf, Retirers;
    InvRetirers(s);
    OwnCount(s, step, s', t);
    if step.t == t {
      InsideHasNone(s, t);
    } else {
      BatchShrinks(s, step, s', t);
      assert BatchOf(s', t) == BatchOf(s, t);
    }
  }

  lemma InsideHasNone(s: State, t: Thread)
    requires Inv(s)
    ensures t in s.pcs && !s.pcs[t].Reclaims() ==> BatchOf(s, t) == {}
  {
    hide Retirers, Refs, Published;
  }

  lemma {:induction false} AtMost64(run: seq<State>, steps: seq<Step>, i: nat, t: Thread)
    requires Run(run, steps) && i < |run|
    ensures WithinBudget(run[i], t) && |BatchOf(run[i], t)| <= 64
  {
    if i == 0 {
      assert BatchOf(run[0], t) == {};
    } else {
      AtMost64(run, steps, i - 1, t);
      RunInv(run, steps, i - 1);
      hide Inv, WithinBudget, Next;
      BudgetKept(run[i - 1], steps[i - 1], run[i], t);
    }
  }

  // ---- The life of a slot ---------------------------------------------------------------------------

  /** One thread and one slot. */
  function One(epoch: Epoch, published: Epoch, place: Place, pc: Pc): State {
    State(epoch, map[1 := published], map[5 := place], map[1 := pc])
  }

  ghost predicate Leads(a: State, run: seq<State>, steps: seq<Step>, b: State) {
    && |run| == |steps| + 1 && run[0] == a && run[|steps|] == b
    && forall i :: 0 <= i < |steps| ==> Next(run[i], steps[i], run[i + 1])
  }

  lemma Then(a: State, run: seq<State>, steps: seq<Step>, b: State, more: seq<State>, next: seq<Step>, c: State)
    requires Leads(a, run, steps, b) && Leads(b, more, next, c)
    ensures Leads(a, run + more[1..], steps + next, c)
  {
    hide Next;
    var r, q := run + more[1..], steps + next;
    forall i | 0 <= i < |q|
      ensures Next(r[i], q[i], r[i + 1])
    {
      if i >= |steps| {
        assert Next(more[i - |steps|], next[i - |steps|], more[i - |steps| + 1]);
      }
    }
  }

  /** What such a state is, and what the changes of a step make of it. */
  lemma OneChanges(e: Epoch, p: Epoch, pl: Place, pc: Pc, e': Epoch, p': Epoch, pl': Place, pc': Pc)
    ensures var s := One(e, p, pl, pc);
      && s.epoch == e && s.published.Keys == {1} && s.published[1] == p
      && s.place.Keys == {5} && s.place[5] == pl && s.pcs.Keys == {1} && s.pcs[1] == pc
      && Goto(s, 1, pc') == One(e, p, pl, pc') && Move(s, 5, pl') == One(e, p, pl', pc)
      && Move(Goto(s, 1, pc'), 5, pl') == One(e, p, pl', pc')
      && Goto(s, 1, pc').(published := s.published[1 := p']) == One(e, p', pl, pc')
      && Goto(s, 1, pc').(epoch := e') == One(e', p, pl, pc')
  {
  }

  lemma LoadsOne()
    ensures Next(One(1, 0, Free, Out), LoadEpoch(1), One(1, 0, Free, Loaded(1)))
  {
    hide One, Goto, Move;
    OneChanges(1, 0, Free, Out, 1, 0, Free, Loaded(1));
  }

  lemma PublishesOne()
    ensures Next(One(1, 0, Free, Loaded(1)), Publish(1), One(1, 1, Free, Inside({})))
  {
    hide One, Goto, Move;
    OneChanges(1, 0, Free, Loaded(1), 1, 1, Free, Inside({}));
  }

  lemma StartsInVain()
    ensures Next(One(1, 1, Free, Inside({})), StartReclaim(1), One(1, 1, Free, Draining({}, 0)))
  {
    hide One, Goto, Move;
    OneChanges(1, 1, Free, Inside({}), 1, 1, Free, Draining({}, 0));
  }

  lemma FindsNone()
    ensures Next(One(1, 1, Free, Draining({}, 0)), NoneQueued(1), One(1, 1, Free, Inside({})))
  {
    hide One, Goto, Move;
    OneChanges(1, 1, Free, Draining({}, 0), 1, 1, Free, Inside({}));
  }

  /** The thread enters its first guard, in which it finds nothing to reclaim. */
  lemma Enters() returns (run: seq<State>, steps: seq<Step>)
    ensures Leads(One(1, 0, Free, Out), run, steps, One(1, 1, Free, Inside({})))
  {
    hide One, Next;
    run := [One(1, 0, Free, Out), One(1, 0, Free, Loaded(1)), One(1, 1, Free, Inside({})),
            One(1, 1, Free, Draining({}, 0)), One(1, 1, Free, Inside({}))];
    steps := [LoadEpoch(1), Publish(1), StartReclaim(1), NoneQueued(1)];
    LoadsOne();
    PublishesOne();
    StartsInVain();
    FindsNone();
  }

  lemma HandsOut5()
    ensures Next(One(1, 1, Free, Inside({})), Alloc(1, 5), One(1, 1, Fresh, Inside({})))
  {
    hide One, Goto, Move;
    OneChanges(1, 1, Free, Inside({}), 1, 1, Fresh, Inside({}));
  }

  lemma Links5()
    ensures Next(One(1, 1, Fresh, Inside({})), Link(1, 5), One(1, 1, Linked, Inside({})))
  {
    hide One, Goto, Move;
    OneChanges(1, 1, Fresh, Inside({}), 1, 1, Linked, Inside({}));
  }

  lemma Reaches5()
    ensures Next(One(1, 1, Linked, Inside({})), Reach(1, 5), One(1, 1, Linked, Inside({} + {5})))
  {
    hide One, Goto, Move;
    OneChanges(1, 1, Linked, Inside({}), 1, 1, Linked, Inside({} + {5}));
  }

  lemma Erases5()
    ensures Next(One(1, 1, Linked, Inside({} + {5})), Erase(1, 5), One(1, 1, Unlinked, Erased({5}, 5)))
  {
    assert {} + {5} == {5};
    hide One, Goto, Move;
    OneChanges(1, 1, Linked, Inside({} + {5}), 1, 1, Unlinked, Erased({5}, 5));
  }

  lemma Stamps5()
    ensures Next(One(1, 1, Unlinked, Erased({5}, 5)), Stamp(1), One(1, 1, Retiring(1), Stamped({5}, 5)))
  {
    hide One, Goto, Move;
    OneChanges(1, 1, Unlinked, Erased({5}, 5), 1, 1, Retiring(1), Stamped({5}, 5));
  }

  lemma Enqueues5()
    ensures Next(One(1, 1, Retiring(1), Stamped({5}, 5)), Enqueue(1), One(1, 1, Queued(1), Inside({5})))
  {
    hide One, Goto, Move;
    OneChanges(1, 1, Retiring(1), Stamped({5}, 5), 1, 1, Queued(1), Inside({5}));
  }

  /** The slot is handed out, linked, reached, erased, and retired at epoch 1. */
  lemma Retires5() returns (run: seq<State>, steps: seq<Step>)
    ensures Leads(One(1, 1, Free, Inside({})), run, steps, One(1, 1, Queued(1), Inside({5})))
  {
    hide One, Next;
    run := [One(1, 1, Free, Inside({})), One(1, 1, Fresh, Inside({})), One(1, 1, Linked, Inside({})),
            One(1, 1, Linked, Inside({} + {5})), One(1, 1, Unlinked, Erased({5}, 5)),
            One(1, 1, Retiring(1), Stamped({5}, 5)), One(1, 1, Queued(1), Inside({5}))];
    steps := [Alloc(1, 5), Link(1, 5), Reach(1, 5), Erase(1, 5), Stamp(1), Enqueue(1)];
    HandsOut5();
    Links5();
    Reaches5();
    Erases5();
    Stamps5();
    Enqueues5();
  }

  lemma Starts(epoch: Epoch, e: Epoch, refs: set<Slot>)
    requires e > 0
    ensures Next(One(epoch, e, Queued(1), Inside(refs)), StartReclaim(1), One(epoch, e, Queued(1), Draining(refs, 0)))
  {
    hide One, Goto, Move;
    OneChanges(epoch, e, Queued(1), Inside(refs), epoch, e, Queued(1), Draining(refs, 0));
  }

  lemma Dequeues5(epoch: Epoch, e: Epoch, refs: set<Slot>)
    requires e > 0
    ensures Next(One(epoch, e, Queued(1), Draining(refs, 0)), Dequeue(1, 5),
                 One(epoch, e, Batch(1, 1), Draining(refs, 1)))
  {
    hide One, Goto, Move;
    OneChanges(epoch, e, Queued(1), Draining(refs, 0), epoch, e, Batch(1, 1), Draining(refs, 1));
  }

  lemma StartsScan(epoch: Epoch, e: Epoch, refs: set<Slot>)
    requires e > 0
    ensures Next(One(epoch, e, Batch(1, 1), Draining(refs, 1)), StartScan(1),
                 One(epoch, e, Batch(1, 1), Scanning(refs, {1}, Infinite)))
  {
    hide One, Goto, Move;
    OneChanges(epoch, e, Batch(1, 1), Draining(refs, 1), epoch, e, Batch(1, 1), Scanning(refs, {1}, Infinite));
  }

  lemma ScansItself(epoch: Epoch, e: Epoch, refs: set<Slot>)
    requires e > 0
    ensures Next(One(epoch, e, Batch(1, 1), Scanning(refs, {1}, Infinite)), Scan(1, 1),
                 One(epoch, e, Batch(1, 1), Scanning(refs, {1} - {1}, Finite(e))))
  {
    hide One, Goto, Move;
    OneChanges(epoch, e, Batch(1, 1), Scanning(refs, {1}, Infinite),
               epoch, e, Batch(1, 1), Scanning(refs, {1} - {1}, Finite(e)));
  }

  lemma EndsScan(epoch: Epoch, e: Epoch, refs: set<Slot>)
    requires e > 0
    ensures Next(One(epoch, e, Batch(1, 1), Scanning(refs, {1} - {1}, Finite(e))), EndScan(1),
                 One(epoch, e, Batch(1, 1), Deciding(refs, e, false)))
  {
    hide One, Goto, Move;
    OneChanges(epoch, e, Batch(1, 1), Scanning(refs, {1} - {1}, Finite(e)),
               epoch, e, Batch(1, 1), Deciding(refs, e, false));
  }

  /** A reclaim up to its decisions: thread 1 has published `e` and nobody else is there. */
  lemma Decides5(epoch: Epoch, e: Epoch, refs: set<Slot>) returns (run: seq<State>, steps: seq<Step>)
    requires e > 0
    ensures Leads(One(epoch, e, Queued(1), Inside(refs)), run, steps,
                  One(epoch, e, Batch(1, 1), Deciding(refs, e, false)))
  {
    hide One, Next;
    run := [One(epoch, e, Queued(1), Inside(refs)), One(epoch, e, Queued(1), Draining(refs, 0)),
            One(epoch, e, Batch(1, 1), Draining(refs, 1)), One(epoch, e, Batch(1, 1), Scanning(refs, {1}, Infinite)),
            One(epoch, e, Batch(1, 1), Scanning(refs, {1} - {1}, Finite(e))),
            One(epoch, e, Batch(1, 1), Deciding(refs, e, false))];
    steps := [StartReclaim(1), Dequeue(1, 5), StartScan(1), Scan(1, 1), EndScan(1)];
    Starts(epoch, e, refs);
    Dequeues5(epoch, e, refs);
    StartsScan(epoch, e, refs);
    ScansItself(epoch, e, refs);
    EndsScan(epoch, e, refs);
  }

  lemma Requeues5()
    ensures Next(One(1, 1, Batch(1, 1), Deciding({5}, 1, false)), Requeue(1, 5),
                 One(1, 1, Queued(1), Deciding({5}, 1, true)))
  {
    hide One, Goto, Move;
    OneChanges(1, 1, Batch(1, 1), Deciding({5}, 1, false), 1, 1, Queued(1), Deciding({5}, 1, true));
  }

  lemma EndsAndAdvances()
    ensures Next(One(1, 1, Queued(1), Deciding({5}, 1, true)), EndReclaim(1), One(2, 1, Queued(1), Inside({5})))
  {
    hide One, Goto, Move;
    OneChanges(1, 1, Queued(1), Deciding({5}, 1, true), 2, 1, Queued(1), Inside({5}));
  }

  /** The first reclaim puts the slot back, because the thread itself may still see it. */
  lemma PutsBack() returns (run: seq<State>, steps: seq<Step>)
    ensures Leads(One(1, 1, Batch(1, 1), Deciding({5}, 1, false)), run, steps, One(2, 1, Queued(1), Inside({5})))
    ensures |steps| == 2 && steps[0] == Requeue(1, 5)
  {
    hide One, Next;
    run := [One(1, 1, Batch(1, 1), Deciding({5}, 1, false)), One(1, 1, Queued(1), Deciding({5}, 1, true)),
            One(2, 1, Queued(1), Inside({5}))];
    steps := [Requeue(1, 5), EndReclaim(1)];
    Requeues5();
    EndsAndAdvances();
  }

  lemma Leaves()
    ensures Next(One(2, 1, Queued(1), Inside({5})), Leave(1), One(2, 0, Queued(1), Out))
  {
    hide One, Goto, Move;
    OneChanges(2, 1, Queued(1), Inside({5}), 2, 0, Queued(1), Out);
  }

  lemma LoadsTwo()
    ensures Next(One(2, 0, Queued(1), Out), LoadEpoch(1), One(2, 0, Queued(1), Loaded(2)))
  {
    hide One, Goto, Move;
    OneChanges(2, 0, Queued(1), Out, 2, 0, Queued(1), Loaded(2));
  }

  lemma PublishesTwo()
    ensures Next(One(2, 0, Queued(1), Loaded(2)), Publish(1), One(2, 2, Queued(1), Inside({})))
  {
    hide One, Goto, Move;
    OneChanges(2, 0, Queued(1), Loaded(2), 2, 2, Queued(1), Inside({}));
  }

  /** The thread comes back at epoch 2. */
  lemma ComesBack() returns (run: seq<State>, steps: seq<Step>)
    ensures Leads(One(2, 1, Queued(1), Inside({5})), run, steps, One(2, 2, Queued(1), Inside({})))
  {
    hide One, Next;
    run := [One(2, 1, Queued(1), Inside({5})), One(2, 0, Queued(1), Out), One(2, 0, Queued(1), Loaded(2)),
            One(2, 2, Queued(1), Inside({}))];
    steps := [Leave(1), LoadEpoch(1), Publish(1)];
    Leaves();
    LoadsTwo();
    PublishesTwo();
  }

  lemma Frees5()
    ensures Next(One(2, 2, Batch(1, 1), Deciding({}, 2, false)), FreeSlot(1, 5),
                 One(2, 2, Free, Deciding({}, 2, false)))
  {
    hide One, Goto, Move;
    OneChanges(2, 2, Batch(1, 1), Deciding({}, 2, false), 2, 2, Free, Deciding({}, 2, false));
  }

  lemma Ends()
    ensures Next(One(2, 2, Free, Deciding({}, 2, false)), EndReclaim(1), One(2, 2, Free, Inside({})))
  {
    hide One, Goto, Move;
    OneChanges(2, 2, Free, Deciding({}, 2, false), 2, 2, Free, Inside({}));
  }

  lemma HandsOutAgain()
    ensures Next(One(2, 2, Free, Inside({})), Alloc(1, 5), One(2, 2, Fresh, Inside({})))
  {
    hide One, Goto, Move;
    OneChanges(2, 2, Free, Inside({}), 2, 2, Fresh, Inside({}));
  }

  /** The second reclaim frees the slot, and it is handed out again. */
  lemma Reuses() returns (run: seq<State>, steps: seq<Step>)
    ensures Leads(One(2, 2, Batch(1, 1), Deciding({}, 2, false)), run, steps, One(2, 2, Fresh, Inside({})))
    ensures |steps| == 3 && steps[0] == FreeSlot(1, 5)
  {
    hide One, Next;
    run := [One(2, 2, Batch(1, 1), Deciding({}, 2, false)), One(2, 2, Free, Deciding({}, 2, false)),
            One(2, 2, Free, Inside({})), One(2, 2, Fresh, Inside({}))];
    steps := [FreeSlot(1, 5), EndReclaim(1), Alloc(1, 5)];
    Frees5();
    Ends();
    HandsOutAgain();
  }

  function Start(): State {
    State(1, map[], map[5 := Free], map[])
  }

  lemma Registers()
    ensures Init(Start()) && Leads(Start(), [Start(), One(1, 0, Free, Out)], [Register(1)], One(1, 0, Free, Out))
  {
  }

  /** A run from the start in which a slot is handed out, retired, put back once, freed at the second
      reclaim and handed out again. */
  lemma SlotIsUsedAgain() returns (run: seq<State>, steps: seq<Step>)
    ensures Run(run, steps) && run[|steps|] == One(2, 2, Fresh, Inside({}))
    ensures exists i: nat :: i < |steps| && steps[i] == Requeue(1, 5)
    ensures exists i: nat :: i < |steps| && steps[i] == FreeSlot(1, 5)
  {
    hide Next, Init, One, Start;
    Registers();
    var start := Start();
    run, steps := [start, One(1, 0, Free, Out)], [Register(1)];
    var r, q := Enters();
    Then(start, run, steps, One(1, 0, Free, Out), r, q, One(1, 1, Free, Inside({})));
    run, steps := run + r[1..], steps + q;
    r, q := Retires5();
    Then(start, run, steps, One(1, 1, Free, Inside({})), r, q, One(1, 1, Queued(1), Inside({5})));
    run, steps := run + r[1..], steps + q;
    r, q := Decides5(1, 1, {5});
    Then(start, run, steps, One(1, 1, Queued(1), Inside({5})), r, q, One(1, 1, Batch(1, 1), Deciding({5}, 1, false)));
    run, steps := run + r[1..], steps + q;
    var before := |steps|;
    r, q := PutsBack();
    Then(start, run, steps, One(1, 1, Batch(1, 1), Deciding({5}, 1, false)), r, q, One(2, 1, Queued(1), Inside({5})));
    run, steps := run + r[1..], steps + q;
    r, q := ComesBack();
    Then(start, run, steps, One(2, 1, Queued(1), Inside({5})), r, q, One(2, 2, Queued(1), Inside({})));
    run, steps := run + r[1..], steps + q;
    r, q := Decides5(2, 2, {});
    Then(start, run, steps, One(2, 2, Queued(1), Inside({})), r, q, One(2, 2, Batch(1, 1), Deciding({}, 2, false)));
    run, steps := run + r[1..], steps + q;
    var later := |steps|;
    r, q := Reuses();
    Then(start, run, steps, One(2, 2, Batch(1, 1), Deciding({}, 2, false)), r, q, One(2, 2, Fresh, Inside({})));
    run, steps := run + r[1..], steps + q;
    assert steps[before] == Requeue(1, 5) && steps[later] == FreeSlot(1, 5);
  }

  // ---- From the load to the decision ----------------------------------------------------------------

  lemma PcStays(s: State, step: Step, s': State, t: Thread)
    requires Next(s, step, s') && step.t != t && t in s.pcs
    ensures t in s'.pcs && s'.pcs[t] == s.pcs[t]
  {
  }

  lemma {:induction false} StillLoaded(run: seq<State>, steps: seq<Step>, t: Thread, i: nat, j: nat)
    requires Run(run, steps) && i < j < |run| && steps[i] == LoadEpoch(t) && forall m :: i < m < j ==> steps[m].t != t
    ensures t in run[j].pcs && run[j].pcs[t] == Loaded(run[i].epoch)
  {
    if j == i + 1 {
      assert Next(run[i], steps[i], run[j]);
    } else {
      StillLoaded(run, steps, t, i, j - 1);
      assert Next(run[j - 1], steps[j - 1], run[j]);
      PcStays(run[j - 1], steps[j - 1], run[j], t);
    }
  }

  /** The epoch that a thread enters its guard with is the one it loaded, however far the global epoch has
      moved on since. */
  lemma PublishesWhatItLoaded(run: seq<State>, steps: seq<Step>, t: Thread, i: nat, j: nat)
    requires Run(run, steps) && i < j < |steps| && steps[i] == LoadEpoch(t) && steps[j] == Publish(t)
    requires forall m :: i < m < j ==> steps[m].t != t
    ensures t in run[j + 1].published && run[j + 1].published[t] == run[i].epoch
  {
    StillLoaded(run, steps, t, i, j);
    assert Next(run[j], steps[j], run[j + 1]);
  }

  ghost predicate Retired(s: State, x: Slot, stamp: Epoch) {
    x in s.place && (s.place[x].Retiring? || s.place[x].Queued? || s.place[x].Batch?) && s.place[x].stamp == stamp
  }

  lemma RetiredStep(s: State, step: Step, s': State, x: Slot, stamp: Epoch)
    requires Next(s, step, s') && Retirers(s) && Retired(s, x, stamp)
    ensures Retired(s', x, stamp) || (step.FreeSlot? && step.slot == x)
  {
    assert step.t in s.pcs && s.pcs[step.t].Retires() ==> RetiresRightly(s, step.t);
    hide Retirers;
  }

  /** From the moment a slot is stamped until it is freed it keeps that stamp, the epoch of that moment,
      through every reclaim that puts it back. */
  lemma {:induction false} StampIsKept(run: seq<State>, steps: seq<Step>, i: nat, j: nat)
    requires Run(run, steps) && i < j < |run| && steps[i].Stamp?
    requires steps[i].t in run[i].pcs && run[i].pcs[steps[i].t].Erased?
    requires forall m :: i < m < j && steps[m].FreeSlot? ==> steps[m].slot != run[i].pcs[steps[i].t].slot
    ensures Retired(run[j], run[i].pcs[steps[i].t].slot, run[i].epoch)
  {
    if j == i + 1 {
      assert Next(run[i], steps[i], run[j]);
    } else {
      hide Next, Inv, Retired;
      StampIsKept(run, steps, i, j - 1);
      RunInv(run, steps, j - 1);
      InvRetirers(run[j - 1]);
      RetiredStep(run[j - 1], steps[j - 1], run[j], run[i].pcs[steps[i].t].slot, run[i].epoch);
    }
  }

  // ---- No thread waits for another --------------------------------------------------------------------

  /** A scan has only threads left that are registered. */
  ghost predicate LeftOk(s: State) {
    forall t :: t in s.pcs && s.pcs[t].Scanning? ==> s.pcs[t].left <= s.published.Keys
  }

  lemma LeftKept(s: State, step: Step, s': State)
    requires LeftOk(s) && Next(s, step, s')
    ensures LeftOk(s')
  {
    assert s.published.Keys <= s'.published.Keys;
    forall t | t in s'.pcs && s'.pcs[t].Scanning?
      ensures s'.pcs[t].left <= s'.published.Keys
    {
      if step.t != t {
        assert t in s.pcs && s'.pcs[t] == s.pcs[t];
      }
    }
  }

  lemma {:induction false} RunLeft(run: seq<State>, steps: seq<Step>, i: nat)
    requires Run(run, steps) && i < |run|
    ensures LeftOk(run[i])
  {
    if i > 0 {
      RunLeft(run, steps, i - 1);
      LeftKept(run[i - 1], steps[i - 1], run[i]);
    }
  }

  /** How many steps a thread needs at most to leave its guard. */
  ghost function ToGo(s: State, t: Thread): nat
    requires t in s.pcs
  {
    var pc := s.pcs[t];
    match pc
    case Out => 0
    case Loaded(_) => 2
    case Inside(_) => 1
    case Erased(_, _) => 3
    case Stamped(_, _) => 2
    case Draining(_, count) => if count == 0 then 2 else |s.published| + |BatchOf(s, t)| + 4
    case Scanning(_, left, _) => |left| + |BatchOf(s, t)| + 3
    case Deciding(_, _, _) => |BatchOf(s, t)| + 2
  }

  /** What is left of a batch when one slot of it has been decided on. */
  lemma OneDecided(s: State, t: Thread, x: Slot, pc: Pc, p: Place)
    requires t in s.pcs && x in BatchOf(s, t) && (p.Free? || p.Queued?)
    ensures |BatchOf(Move(Goto(s, t, pc), x, p), t)| == |BatchOf(s, t)| - 1
  {
    assert BatchOf(Move(Goto(s, t, pc), x, p), t) == BatchOf(s, t) - {x};
  }

  lemma DecidesOne(s: State, t: Thread, x: Slot) returns (step: Step, s': State)
    requires t in s.pcs && s.pcs[t].Deciding? && x in BatchOf(s, t)
    ensures Next(s, step, s') && step.t == t && t in s'.pcs && ToGo(s', t) < ToGo(s, t)
  {
    var pc := s.pcs[t];
    var fate := Fate(t, x, s.place[x].stamp, pc.limit);
    step := fate.0;
    var pc' := if step.FreeSlot? then pc else Deciding(pc.refs, pc.limit, true);
    assert Goto(s, t, pc) == s;
    s' := Move(Goto(s, t, pc'), x, fate.1);
    OneDecided(s, t, x, pc', fate.1);
  }

  lemma ScansOne(s: State, t: Thread, u: Thread) returns (step: Step, s': State)
    requires t in s.pcs && s.pcs[t].Scanning? && u in s.pcs[t].left && u in s.published
    ensures Next(s, step, s') && step.t == t && t in s'.pcs && ToGo(s', t) < ToGo(s, t)
  {
    var pc := s.pcs[t];
    step, s' := Scan(t, u), Goto(s, t, Scanning(pc.refs, pc.left - {u}, Lower(pc.min, s.published[u])));
    assert BatchOf(s', t) == BatchOf(s, t);
  }

  lemma EndsOne(s: State, t: Thread) returns (step: Step, s': State)
    requires t in s.pcs && (s.pcs[t].Scanning? ==> s.pcs[t].left == {}) && (s.pcs[t].Deciding? ==> BatchOf(s, t) == {})
    requires s.pcs[t].Reclaims()
    ensures Next(s, step, s') && step.t == t && t in s'.pcs && ToGo(s', t) < ToGo(s, t)
  {
    var pc := s.pcs[t];
    match pc
    case Draining(refs, count) =>
      if count == 0 {
        step, s' := NoneQueued(t), Goto(s, t, Inside(refs));
      } else {
        step, s' := StartScan(t), Goto(s, t, Scanning(refs, s.published.Keys, Infinite));
        assert BatchOf(s', t) == BatchOf(s, t) && |s.published.Keys| == |s.published|;
      }
    case Scanning(refs, _, min) =>
      step, s' := EndScan(t), Goto(s, t, Deciding(refs, if min.Infinite? then s.epoch else min.value, false));
      assert BatchOf(s', t) == BatchOf(s, t);
    case Deciding(refs, _, again) =>
      assert forall x :: x in s.place ==> x !in BatchOf(s, t);
      step, s' := EndReclaim(t), Goto(s, t, Inside(refs)).(epoch := if again then s.epoch + 1 else s.epoch);
  }

  lemma GuardsOne(s: State, t: Thread) returns (step: Step, s': State)
    requires t in s.pcs && !s.pcs[t].Out? && !s.pcs[t].Reclaims() && (s.pcs[t].Retires() ==> RetiresRightly(s, t))
    ensures Next(s, step, s') && step.t == t && t in s'.pcs && ToGo(s', t) < ToGo(s, t)
  {
    match s.pcs[t]
    case Loaded(e) =>
      step, s' := Publish(t), Goto(s, t, Inside({})).(published := s.published[t := e]);
    case Inside(_) =>
      step, s' := Leave(t), Goto(s, t, Out).(published := s.published[t := 0]);
    case Erased(refs, x) =>
      step, s' := Stamp(t), Move(Goto(s, t, Stamped(refs, x)), x, Retiring(s.epoch));
    case Stamped(refs, x) =>
      step, s' := Enqueue(t), Move(Goto(s, t, Inside(refs)), x, Queued(s.place[x].stamp));
  }

  lemma OneStep(s: State, t: Thread) returns (step: Step, s': State)
    requires Retirers(s) && LeftOk(s) && t in s.pcs && !s.pcs[t].Out?
    ensures Next(s, step, s') && step.t == t && t in s'.pcs && ToGo(s', t) < ToGo(s, t)
  {
    hide Next, ToGo;
    var pc := s.pcs[t];
    if pc.Deciding? && BatchOf(s, t) != {} {
      var x :| x in BatchOf(s, t);
      step, s' := DecidesOne(s, t, x);
    } else if pc.Scanning? && pc.left != {} {
      var u :| u in pc.left;
      step, s' := ScansOne(s, t, u);
    } else if pc.Reclaims() {
      step, s' := EndsOne(s, t);
    } else {
      step, s' := GuardsOne(s, t);
    }
  }

  lemma {:induction false} LeavesAlone(s: State, t: Thread) returns (run: seq<State>, steps: seq<Step>, s': State)
    requires Inv(s) && LeftOk(s) && t in s.pcs
    ensures Leads(s, run, steps, s') && t in s'.pcs && s'.pcs[t].Out?
    ensures |steps| <= ToGo(s, t) && forall m :: 0 <= m < |steps| ==> steps[m].t == t
    decreases ToGo(s, t)
  {
    hide Next, ToGo, Inv, LeftOk;
    if s.pcs[t].Out? {
      return [s], [], s;
    }
    InvRetirers(s);
    var step, next := OneStep(s, t);
    NextKeepsInv(s, step, next);
    LeftKept(s, step, next);
    var r, q;
    r, q, s' := LeavesAlone(next, t);
    assert Leads(s, [s, next], [step], next);
    Then(s, [s, next], [step], next, r, q, s');
    run, steps := [s, next] + r[1..], [step] + q;
  }

  lemma ToGoBound(s: State, t: Thread)
    requires t in s.pcs && WithinBudget(s, t) && LeftOk(s)
    ensures ToGo(s, t) <= |s.published| + 68
  {
    if s.pcs[t].Scanning? {
      Smaller(s.pcs[t].left, s.published.Keys);
      assert |s.published.Keys| == |s.published|;
    }
  }

  /** Reclamation is wait-free: at every moment of every run each thread can leave its guard by steps of its
      own alone, at most one for each registered thread and 68 more, whatever it was doing. */
  lemma NobodyWaits(run: seq<State>, steps: seq<Step>, i: nat, t: Thread)
      returns (rest: seq<State>, own: seq<Step>, s': State)
    requires Run(run, steps) && i < |run| && t in run[i].pcs
    ensures Leads(run[i], rest, own, s') && t in s'.pcs && s'.pcs[t].Out?
    ensures |own| <= |run[i].published| + 68 && forall m :: 0 <= m < |own| ==> own[m].t == t
  {
    RunInv(run, steps, i);
    RunLeft(run, steps, i);
    AtMost64(run, steps, i, t);
    ToGoBound(run[i], t);
    rest, own, s' := LeavesAlone(run[i], t);
  }

  /** Inside its guard a thread can hand out any free slot, link any fresh one, reach and erase any linked one;
      while it reclaims and has fewer than 64 slots it can dequeue any queued one. */
  lemma SlotMoves(s: State, t: Thread, x: Slot) returns (step: Step, s': State)
    requires t in s.pcs && x in s.place
    requires if s.pcs[t].Draining? then s.pcs[t].count < 64 && s.place[x].Queued?
             else s.pcs[t].Inside? && (s.place[x].Free? || s.place[x].Fresh? || s.place[x].Linked?)
    ensures Next(s, step, s') && step.t == t && x in s'.place
    ensures s'.place[x] == match s.place[x] {
        case Free => Fresh
        case Fresh => Linked
        case Linked => Unlinked
        case Queued(stamp) => Batch(t, stamp)
        case p => p
      }
    ensures s.place[x].Linked? ==> exists r :: Next(s, Reach(t, x), r) && t in r.pcs && x in r.pcs[t].Refs()
  {
    var pc := s.pcs[t];
    match s.place[x]
    case Free => step, s' := Alloc(t, x), Move(s, x, Fresh);
    case Fresh => step, s' := Link(t, x), Move(s, x, Linked);
    case Linked =>
      step, s' := Erase(t, x), Move(Goto(s, t, Erased(pc.refs, x)), x, Unlinked);
      var r := Goto(s, t, Inside(pc.refs + {x}));
      assert Next(s, Reach(t, x), r);
    case Queued(stamp) =>
      step, s' := Dequeue(t, x), Move(Goto(s, t, Draining(pc.refs, pc.count + 1)), x, Batch(t, stamp));
  }
}
