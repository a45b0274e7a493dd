/**
 Calls of the shared disk over whole runs: each makes exactly one request, and a bounded number of steps of the
 threads and interrupts is all it takes until every call has returned.
 */
module SynchDiskProgress {
  import opened Sums
  import opened Semaphores
  import opened SynchDisks

  /** Steps that a thread has still to make in its call, and those of a thread that it will wake. */
  function Weight(pc: Pc): nat {
    match pc
    case Idle => 0
    case Unlocking(_) => 2
    case Leaving(_) => 3
    case OnSem(_) => 3
    case AtSem(_, _) => 4
    case Requesting => 7
    case Entered => 8
    case OnLock => 8
    case Acquiring(_) => 9
  }

  function WorkLeft(s: State): nat {
    Sum(s.threads, Weight) + 2 * s.pending
  }

  /** A call that has not made its request yet. */
  function BeforeRequest(pc: Pc): nat {
    if pc.Acquiring? || pc.OnLock? || pc.Entered? || pc.Requesting? then 1 else 0
  }

  function Calls(run: seq<Action>): nat {
    if run == [] then 0 else (if run[0].Call? then 1 else 0) + Calls(run[1..])
  }

  /** Steps of threads in a call, and interrupts. */
  function Steps(run: seq<Action>): nat {
    if run == [] then 0 else (if run[0].Call? then 0 else 1) + Steps(run[1..])
  }

  lemma SumsSet(ts: seq<Pc>, i: nat, pc: Pc)
    requires i < |ts|
    ensures Sum(ts[i := pc], Weight) + Weight(ts[i]) == Sum(ts, Weight) + Weight(pc)
    ensures Sum(ts[i := pc], BeforeRequest) + BeforeRequest(ts[i]) == Sum(ts, BeforeRequest) + BeforeRequest(pc)
  {
    SumUpdate(ts, i, pc, Weight);
    SumUpdate(ts, i, pc, BeforeRequest);
  }

  lemma WakeCosts(ts: seq<Pc>, queue: seq<nat>)
    ensures |Wake(ts, queue)| == |ts|
    ensures Sum(Wake(ts, queue), Weight) <= Sum(ts, Weight) + 1
    ensures Sum(Wake(ts, queue), BeforeRequest) == Sum(ts, BeforeRequest)
  {
    if queue != [] && queue[0] < |ts| {
      SumsSet(ts, queue[0], Roused(ts[queue[0]]));
    }
  }

  lemma UnlockShrinks(s: State, i: nat)
    requires i < |s.threads| && s.threads[i].Unlocking?
    ensures var s' := WorkStep(s, i);
            && WorkLeft(s') < WorkLeft(s)
            && s'.issued + Sum(s'.threads, BeforeRequest) == s.issued + Sum(s.threads, BeforeRequest)
  {
    hide Wake, Sum;
    SumsSet(s.threads, i, Idle);
    WakeCosts(s.threads[i := Idle], s.lock.queue);
  }

  lemma WorkShrinks(s: State, i: nat)
    requires Enabled(s, i) && (s.threads[i].Requesting? ==> !s.active)
    ensures var s' := WorkStep(s, i);
            && WorkLeft(s') < WorkLeft(s)
            && s'.issued + Sum(s'.threads, BeforeRequest) == s.issued + Sum(s.threads, BeforeRequest)
  {
    hide Wake, Sum;
    if s.threads[i].Unlocking? {
      UnlockShrinks(s, i);
    } else {
      SumsSet(s.threads, i, WorkStep(s, i).threads[i]);
    }
  }

  lemma NotActive(s: State, i: nat)
    requires Inv(s) && i < |s.threads| && s.threads[i].Requesting?
    ensures !s.active
  {
    NoOtherFlight(s.lock, s.threads, i);
  }

  lemma StepShrinks(s: State, a: Action)
    requires Inv(s) && Can(s, a)
    ensures var s' := Do(s, a);
            && WorkLeft(s') + (if a.Call? then 0 else 1) <= WorkLeft(s) + (if a.Call? then 9 else 0)
            && s'.issued + Sum(s'.threads, BeforeRequest)
               == s.issued + Sum(s.threads, BeforeRequest) + (if a.Call? then 1 else 0)
  {
    hide Inv, WorkStep, Wake, Sum;
    match a
    case Call(i) => SumsSet(s.threads, i, Acquiring(false));
    case Work(i) =>
      if s.threads[i].Requesting? {
        NotActive(s, i);
      }
      WorkShrinks(s, i);
    case Interrupt => WakeCosts(s.threads, s.semaphore.queue);
  }

  lemma {:induction false} RunShrinks(s: State, run: seq<Action>)
    requires Inv(s) && Legal(s, run)
    ensures var s' := After(s, run);
            && Steps(run) + WorkLeft(s') <= WorkLeft(s) + 9 * Calls(run)
            && s'.issued + Sum(s'.threads, BeforeRequest) == s.issued + Sum(s.threads, BeforeRequest) + Calls(run)
    decreases |run|
  {
    hide Inv, Do, Can, WorkLeft;
    if run != [] {
      StepInv(s, run[0]);
      StepShrinks(s, run[0]);
      RunShrinks(Do(s, run[0]), run[1..]);
    }
  }

  /**
   Over every run of any number of threads: steps and interrupts are at most 9 for each call, and every call has
   made its one request or is on its way to it. Where nothing can go on, every call has returned and its
   request, like all of them, is completed.
   */
  lemma CallsReturn(threads: nat, run: seq<Action>)
    requires Legal(Init(threads), run)
    ensures var s := After(Init(threads), run);
            && Steps(run) <= 9 * Calls(run)
            && s.issued + Sum(s.threads, BeforeRequest) == Calls(run)
            && (s.pending == 0 && (forall k :: 0 <= k < |s.threads| ==> !Enabled(s, k)) ==>
                  (forall k :: 0 <= k < |s.threads| ==> s.threads[k] == Idle)
                  && s.issued == s.completed == Calls(run))
  {
    hide Inv, Enabled, Legal, After;
    InitInv(threads);
    SumZero(Init(threads).threads, Weight);
    SumZero(Init(threads).threads, BeforeRequest);
    RunShrinks(Init(threads), run);
    var s := After(Init(threads), run);
    assert Reachable(s);
    ActiveMeansPending(s);
    if s.pending == 0 && forall k :: 0 <= k < |s.threads| ==> !Enabled(s, k) {
      forall k: nat | k < |s.threads| ensures s.threads[k] == Idle {
        QuietMeansDone(s, k);
      }
      SumZero(s.threads, BeforeRequest);
    }
  }
}
