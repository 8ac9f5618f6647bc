/** The waiting time of a simulated memory server: every caller moves the server's finish time with a
    compare-and-swap loop. Any number of threads run the loop on one server; each clock read, load and
    compare-and-swap is one step, and a weak compare-and-swap may fail for no reason. */
module ServerQueue {

  type Thread = nat

  datatype Pc =
    | Idle
    | Timed(now: nat, trans: nat)                  // clock read
    | Ready(now: nat, trans: nat, prev: nat)       // holds a value of the finish time

  /** A request that got its place: when it arrived, its service time, the delay returned to the caller
      and the finish time its compare-and-swap wrote. */
  datatype Request = Request(arrival: nat, service: nat, delay: nat, finish: nat)

  /** `served` lists the requests in the order of their successful compare-and-swaps. */
  datatype State = State(finish: nat, pcs: map<Thread, Pc>, served: seq<Request>)

  datatype Step =
    | Arrive(t: Thread, now: nat, trans: nat)
    | Load(t: Thread)
    | CasWins(t: Thread)
    | CasFails(t: Thread)

  /** When the server can start: not before the request arrives. */
  function Start(prev: nat, now: nat): nat {
    if prev > now then prev else now
  }

  function Delay(prev: nat, now: nat, trans: nat): nat {
    (if prev > now then prev - now else 0) + trans
  }

  ghost predicate Init(s: State) {
    s.finish == 0 && s.served == [] && forall t :: t in s.pcs ==> s.pcs[t] == Idle
  }

  ghost predicate Next(s: State, step: Step, s': State) {
    && step.t in s.pcs
    && var pc := s.pcs[step.t];
    match step
    case Arrive(t, now, trans) => pc.Idle? && s' == s.(pcs := s.pcs[t := Timed(now, trans)])
    case Load(t) => pc.Timed? && s' == s.(pcs := s.pcs[t := Ready(pc.now, pc.trans, s.finish)])
    case CasWins(t) =>
      && pc.Ready? && pc.prev == s.finish
      && var finish := Start(pc.prev, pc.now) + pc.trans;
      s' == State(finish, s.pcs[t := Idle],
                  s.served + [Request(pc.now, pc.trans, Delay(pc.prev, pc.now, pc.trans), finish)])
    case CasFails(t) => pc.Ready? && s' == s.(pcs := s.pcs[t := pc.(prev := s.finish)])
  }

  // ---- The schedule of one server ---------------------------------------------------------------

  /** The finish time of the last request. */
  function LastFinish(served: seq<Request>): nat {
    if served == [] then 0 else served[|served| - 1].finish
  }

  /** The work of the requests from `k` on. */
  function Work(served: seq<Request>, k: nat): nat
    requires k <= |served|
    decreases |served| - k
  {
    if k == |served| then 0 else served[k].service + Work(served, k + 1)
  }

  /** The place of request `k`: it starts neither before it arrives nor before its predecessor is done,
      and as early as these two allow. */
  ghost predicate Placed(served: seq<Request>, k: nat)
    requires k < |served|
  {
    var r := served[k];
    && r.finish == Start(LastFinish(served[..k]), r.arrival) + r.service
    && r.arrival + r.delay == r.finish
  }

  ghost predicate Inv(s: State) {
    && s.finish == LastFinish(s.served)
    && forall k :: 0 <= k < |s.served| ==> Placed(s.served, k)
  }

  lemma AppendPlaced(served: seq<Request>, r: Request)
    requires forall k :: 0 <= k < |served| ==> Placed(served, k)
    requires r.finish == Start(LastFinish(served), r.arrival) + r.service && r.arrival + r.delay == r.finish
    ensures forall k :: 0 <= k <= |served| ==> Placed(served + [r], k)
  {
    forall k | 0 <= k <= |served|
      ensures Placed(served + [r], k)
    {
      assert (served + [r])[..k] == served[..k];
      assert served[..|served|] == served;
      assert k < |served| ==> Placed(served, k);
    }
  }

  lemma NextKeepsInv(s: State, step: Step, s': State)
    requires Inv(s) && Next(s, step, s')
    ensures Inv(s') && s.served <= s'.served
  {
    if step.CasWins? {
      AppendPlaced(s.served, s'.served[|s.served|]);
    }
  }

  ghost predicate Run(run: seq<State>, steps: seq<Step>) {
    && |run| == |steps| + 1 && Init(run[0])
    && forall i :: 0 <= i < |steps| ==> Next(run[i], steps[i], run[i + 1])
  }

  lemma {:induction false} RunInv(run: seq<State>, steps: seq<Step>, i: nat)
    requires Run(run, steps) && i < |run|
    ensures Inv(run[i])
  {
    if i > 0 {
      RunInv(run, steps, i - 1);
      NextKeepsInv(run[i - 1], steps[i - 1], run[i]);
    }
  }

  lemma {:induction false} FinishesGrow(served: seq<Request>, j: nat, k: nat)
    requires j < k < |served| && forall k :: 0 <= k < |served| ==> Placed(served, k)
    ensures served[j].finish <= served[k].finish - served[k].service
  {
    assert Placed(served, k);
    assert served[..k][k - 1] == served[k - 1];
    if j < k - 1 {
      FinishesGrow(served, j, k - 1);
    }
  }

  /** In every interleaving no two requests are in service at the same instant: the slots
      [finish - service, finish) are pairwise disjoint, in the order of the compare-and-swaps. */
  lemma SlotsAreDisjoint(run: seq<State>, steps: seq<Step>, i: nat, j: nat, k: nat, time: nat)
    requires Run(run, steps) && i < |run| && j < |run[i].served| && k < |run[i].served| && j != k
    requires run[i].served[j].finish - run[i].served[j].service <= time < run[i].served[j].finish
    ensures !(run[i].served[k].finish - run[i].served[k].service <= time < run[i].served[k].finish)
  {
    RunInv(run, steps, i);
    FinishesGrow(run[i].served, if j < k then j else k, if j < k then k else j);
  }

  /** No service starts before its request arrives, and the returned delay ends at the finish time. */
  lemma ServedAfterArrival(run: seq<State>, steps: seq<Step>, i: nat, k: nat)
    requires Run(run, steps) && i < |run| && k < |run[i].served|
    ensures var r := run[i].served[k];
      && r.arrival <= r.finish - r.service
      && r.arrival + r.delay == r.finish
      && (r.arrival < r.finish - r.service ==> k > 0 && r.finish - r.service == run[i].served[k - 1].finish)
  {
    RunInv(run, steps, i);
    assert Placed(run[i].served, k);
  }

  lemma {:induction false} WorkSplits(served: seq<Request>, k: nat)
    requires 0 < |served| && k < |served|
    ensures Work(served, k) == Work(served[..|served| - 1], k) + served[|served| - 1].service
    decreases |served| - k
  {
    if k + 1 < |served| {
      WorkSplits(served, k + 1);
    }
  }

  /** The closed form: the last finish time is the largest arrival plus all work from it on. */
  lemma {:induction false} LatestBusyPeriod(served: seq<Request>) returns (k: nat)
    requires served != [] && forall k :: 0 <= k < |served| ==> Placed(served, k)
    ensures k < |served| && LastFinish(served) == served[k].arrival + Work(served, k)
    ensures forall j :: 0 <= j < |served| ==> served[j].arrival + Work(served, j) <= LastFinish(served)
  {
    var last := |served| - 1;
    var before := served[..last];
    assert Placed(served, last);
    assert Work(served, last) == served[last].service + Work(served, last + 1);
    k := last;
    if before != [] {
      forall k | 0 <= k < last
        ensures Placed(before, k)
      {
        assert before[..k] == served[..k];
        assert Placed(served, k);
      }
      var earlier := LatestBusyPeriod(before);
      forall j: nat | j < last
        ensures served[j].arrival + Work(served, j) == before[j].arrival + Work(before, j) + served[last].service
      {
        WorkSplits(served, j);
      }
      if LastFinish(before) > served[last].arrival {
        k := earlier;
      }
    }
  }

  /** In every interleaving the server's finish time is the maximum, over the requests placed so far, of
      the arrival plus the service times of that request and all later ones. */
  lemma FinishClosedForm(run: seq<State>, steps: seq<Step>, i: nat)
    requires Run(run, steps) && i < |run| && run[i].served != []
    ensures forall j :: 0 <= j < |run[i].served| ==> run[i].served[j].arrival + Work(run[i].served, j) <= run[i].finish
    ensures exists k :: 0 <= k < |run[i].served| && run[i].served[k].arrival + Work(run[i].served, k) == run[i].finish
  {
    RunInv(run, steps, i);
    var _ := LatestBusyPeriod(run[i].served);
  }

  // ---- The loop as a method -----------------------------------------------------------------------

  /** What happens between two tries of one caller: requests of others get their places, and the
      compare-and-swap may fail for no reason. */
  datatype Gap = Gap(others: seq<(nat, nat)>, spurious: bool)

  class Server {
    var finish: nat
    ghost var served: seq<Request>

    ghost predicate Valid()
      reads this
    {
      && finish == LastFinish(served)
      && forall k :: 0 <= k < |served| ==> Placed(served, k)
    }

    constructor ()
      ensures Valid() && served == []
    {
      finish, served := 0, [];
    }

    /** A request that meets no competitor. */
    method Place(now: nat, trans: nat) returns (delay: nat)
      requires Valid()
      modifies this
      ensures Valid() && served == old(served) + [Request(now, trans, delay, finish)]
    {
      delay := Delay(finish, now, trans);
      ghost var before := served;
      finish := Start(finish, now) + trans;
      served := served + [Request(now, trans, delay, finish)];
      AppendPlaced(before, Request(now, trans, delay, finish));
    }

    /** The requests of others between two tries. */
    method Interfere(others: seq<(nat, nat)>)
      requires Valid()
      modifies this
      ensures Valid() && old(served) <= served && |served| == |old(served)| + |others|
      ensures others == [] ==> finish == old(finish)
      ensures forall k :: 0 <= k < |others| ==>
        var r := served[|old(served)| + k]; (r.arrival, r.service) == others[k]
    {
      for i := 0 to |others|
        invariant Valid() && old(served) <= served && |served| == |old(served)| + i
        invariant i == 0 ==> finish == old(finish)
        invariant forall k :: 0 <= k < i ==>
          var r := served[|old(served)| + k]; (r.arrival, r.service) == others[k]
      {
        var _ := Place(others[i].0, others[i].1);
      }
    }

    /** A try fails only when others came in between or for no reason. */
    static predicate Clash(gaps: seq<Gap>, k: nat) {
      k < |gaps| && (gaps[k].others != [] || gaps[k].spurious)
    }

    /** The loop: whatever others do between the load and each try, the request that wins is placed
        after everything served by then, and the delay returned is the one of that place; a caller without
        competitors needs one try. */
    method GetServerTimeDelay(now: nat, trans: nat, gaps: seq<Gap>) returns (delay: nat, ghost tries: nat)
      requires Valid()
      modifies this
      ensures Valid() && old(served) < served
      ensures served[|served| - 1] == Request(now, trans, delay, finish)
      ensures tries > 0 && !(tries <= |gaps| && gaps[tries - 1].spurious)
      ensures forall k :: 0 <= k < tries - 1 ==> Clash(gaps, k)
      ensures |served| == |old(served)| + Requests(gaps, tries) + 1
    {
      var prev: nat := finish;
      var expected := Start(prev, now) + trans;
      var won, i := false, 0;
      while !won
        invariant !won ==> prev == finish && i <= |gaps|
        invariant Valid() && old(served) <= served
        invariant expected == Start(prev, now) + trans
        invariant won ==> old(served) < served
        invariant won ==> served[|served| - 1] == Request(now, trans, Delay(prev, now, trans), finish)
        invariant forall k :: 0 <= k < i - (if won then 1 else 0) ==> Clash(gaps, k)
        invariant won ==> i > 0 && !(i <= |gaps| && gaps[i - 1].spurious)
        invariant |served| == |old(served)| + Requests(gaps, i) + if won then 1 else 0
        decreases !won, |gaps| - i
      {
        if i < |gaps| {
          Interfere(gaps[i].others);
        }
        if finish == prev && !(i < |gaps| && gaps[i].spurious) {
          ghost var before := served;
          finish, won := expected, true;
          served := served + [Request(now, trans, Delay(prev, now, trans), finish)];
          AppendPlaced(before, served[|before|]);
        } else {
          prev := finish;
          expected := Start(prev, now) + trans;
        }
        i := i + 1;
      }
      delay := (if prev > now then prev - now else 0) + trans;
      tries := i;
    }
  }

  /** The requests of others up to try `n`. */
  function Requests(gaps: seq<Gap>, n: nat): nat {
    if n == 0 then 0 else Requests(gaps, n - 1) + if n <= |gaps| then |gaps[n - 1].others| else 0
  }

  // ---- No caller waits for another ---------------------------------------------------------------------

  /** What a caller makes of the finish time in a step system without the others. */
  function OwnNext(s: State, t: Thread): (r: (Step, State))
    requires t in s.pcs && !s.pcs[t].Idle?
  {
    match s.pcs[t]
    case Timed(now, trans) => (Load(t), s.(pcs := s.pcs[t := Ready(now, trans, s.finish)]))
    case Ready(now, trans, prev) =>
      if prev == s.finish then
        var finish := Start(prev, now) + trans;
        (CasWins(t), State(finish, s.pcs[t := Idle], s.served + [Request(now, trans, Delay(prev, now, trans), finish)]))
      else (CasFails(t), s.(pcs := s.pcs[t := Ready(now, trans, s.finish)]))
  }

  ghost predicate Leads(a: State, run: seq<State>, steps: seq<Step>, b: State) {
    && |run| == |steps| + 1 && run[0] == a && run[|steps|] == b
    && forall i :: 0 <= i < |steps| ==> Next(run[i], steps[i], run[i + 1])
  }

  /** A request may arrive at any time and need any service, and a try may fail for no reason. */
  lemma AnyRequest(s: State, t: Thread, now: nat, trans: nat) returns (timed: State, ready: State)
    requires t in s.pcs && s.pcs[t].Idle?
    ensures Next(s, Arrive(t, now, trans), timed) && timed == s.(pcs := s.pcs[t := Timed(now, trans)])
    ensures Next(timed, Load(t), ready) && Next(ready, CasFails(t), ready) && ready.served == s.served
  {
    timed := s.(pcs := s.pcs[t := Timed(now, trans)]);
    ready := timed.(pcs := timed.pcs[t := Ready(now, trans, s.finish)]);
    assert ready.pcs == ready.pcs[t := Ready(now, trans, s.finish)];
  }

  /** At every moment a caller that has read the clock gets its place by two steps of its own at most, and
      that place comes after the requests served by then. */
  lemma SoonServed(s: State, t: Thread) returns (run: seq<State>, steps: seq<Step>, s': State)
    requires t in s.pcs && !s.pcs[t].Idle?
    ensures Leads(s, run, steps, s') && |steps| <= 2 && forall m :: 0 <= m < |steps| ==> steps[m].t == t
    ensures s'.pcs == s.pcs[t := Idle] && |s'.served| == |s.served| + 1 && s.served <= s'.served
    ensures var r := s'.served[|s.served|];
      && r.arrival == s.pcs[t].now && r.service == s.pcs[t].trans && r.arrival + r.delay == s'.finish == r.finish
      && r.finish == Start(s.finish, r.arrival) + r.service
  {
    var r := OwnNext(s, t);
    if r.0.CasWins? {
      return [s, r.1], [r.0], r.1;
    }
    var q := OwnNext(r.1, t);
    run, steps, s' := [s, r.1, q.1], [r.0, q.0], q.1;
  }
}
