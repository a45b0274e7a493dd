/**
 The calls of one semaphore over whole runs: none is lost on the way, no thread tests without a cause, and sleepers
 are woken in the order in which they went to sleep.
 */
module SemaphoreHistory {
  import opened Sums
  import opened Semaphores
  import opened SemaphoreRuns

  function InCall(u: Use): nat {
    if u.Away? then 0 else 1
  }

  function AboutToTest(u: Use): nat {
    if u.Testing? then 1 else 0
  }

  function CallsOfP(run: seq<Action>): nat {
    if run == [] then 0 else (if run[0].CallP? then 1 else 0) + CallsOfP(run[1..])
  }

  function CallsOfV(run: seq<Action>): nat {
    if run == [] then 0 else (if run[0].V? then 1 else 0) + CallsOfV(run[1..])
  }

  function Tests(run: seq<Action>): nat {
    if run == [] then 0 else (if run[0].Test? then 1 else 0) + Tests(run[1..])
  }

  lemma StepCounts(initial: nat, s: State, a: Action)
    requires Inv(initial, s) && Can(s, a)
    ensures var s' := Do(s, a);
            && s'.ps + Sum(s'.threads, InCall) == s.ps + Sum(s.threads, InCall) + (if a.CallP? then 1 else 0)
            && s'.vs == s.vs + (if a.V? then 1 else 0)
            && Sum(s'.threads, AboutToTest) + (if a.Test? then 1 else 0)
               <= Sum(s.threads, AboutToTest) + (if a.CallP? || a.V? then 1 else 0)
  {
    if a.V? {
      if s.sem.queue != [] {
        SumUpdate(s.threads, s.sem.queue[0], Testing(true), InCall);
        SumUpdate(s.threads, s.sem.queue[0], Testing(true), AboutToTest);
      }
    } else {
      SumUpdate(s.threads, a.i, Do(s, a).threads[a.i], InCall);
      SumUpdate(s.threads, a.i, Do(s, a).threads[a.i], AboutToTest);
    }
  }

  /**
   Over every run, each call of P is either completed or still in progress, each call of V is completed, and a
   thread tests the value once for each call of P or V at most: there is no busy waiting.
   */
  lemma {:induction false} CallsAccountedFor(initial: nat, s: State, run: seq<Action>)
    requires Inv(initial, s) && Legal(s, run)
    ensures var s' := After(s, run);
            && s'.ps + Sum(s'.threads, InCall) == s.ps + Sum(s.threads, InCall) + CallsOfP(run)
            && s'.vs == s.vs + CallsOfV(run)
            && Tests(run) + Sum(s'.threads, AboutToTest)
               <= Sum(s.threads, AboutToTest) + CallsOfP(run) + CallsOfV(run)
    decreases |run|
  {
    hide Inv, Do, Can;
    if run != [] {
      StepInv(initial, s, run[0]);
      StepCounts(initial, s, run[0]);
      CallsAccountedFor(initial, Do(s, run[0]), run[1..]);
    }
  }

  /** A sleeper moves up one place with each call of V. */
  lemma {:induction false} MovesUp(s: State, run: seq<Action>, k: nat)
    requires Legal(s, run) && CallsOfV(run) <= k < |s.sem.queue|
    ensures var q := After(s, run).sem.queue;
            k - CallsOfV(run) < |q| && q[k - CallsOfV(run)] == s.sem.queue[k]
    decreases |run|
  {
    if run != [] {
      if run[0].V? {
        MovesUp(Do(s, run[0]), run[1..], k - 1);
      } else {
        MovesUp(Do(s, run[0]), run[1..], k);
      }
    }
  }

  /**
   First come, first served: a thread that goes to sleep behind k others sleeps on through the next k calls of V,
   whatever else happens, and the call after these wakes it.
   */
  lemma WokenInTurn(initial: nat, s: State, i: nat, run: seq<Action>)
    requires Inv(initial, s) && Can(s, Test(i)) && s.sem.value == 0 && Legal(Do(s, Test(i)), run)
    ensures var k, s' := |s.sem.queue|, After(Do(s, Test(i)), run);
            && i < |s'.threads|
            && (CallsOfV(run) <= k ==> s'.threads[i] == Queued)
            && (CallsOfV(run) == k ==> Can(s', V) && Do(s', V).threads[i] == Testing(true))
  {
    var asleep, k := Do(s, Test(i)), |s.sem.queue|;
    StepInv(initial, s, Test(i));
    RunInv(initial, asleep, run);
    SameThreads(asleep, run);
    if CallsOfV(run) <= k {
      MovesUp(asleep, run, k);
    }
  }

  lemma {:induction false} SameThreads(s: State, run: seq<Action>)
    requires Legal(s, run)
    ensures |After(s, run).threads| == |s.threads|
    decreases |run|
  {
    if run != [] {
      SameThreads(Do(s, run[0]), run[1..]);
    }
  }
}
