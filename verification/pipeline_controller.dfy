/**
 The consumer controller over whole runs: when it starts a consumer and when it cancels one, which one that is,
 and what becomes of it. Everything is said with the numbers of main.cpp, the threads and the vector.
 */
module PipelineController {
  import opened Histories
  import opened Pipeline
  import opened PipelineInvariant
  import opened PipelineSteps
  import opened PipelineHistory

  // ----- One step -----

  /** The controller reads the size while it owns the worker queue's mutex, and touches nothing else. */
  lemma SizeIsRead(job: Job, s: State)
    requires Can(job, s, Control) && !s.controller.Scale?
    ensures var s' := Do(job, s, Control);
            && s'.(worker := s.worker, controller := s.controller) == s && s'.worker.items == s.worker.items
            && s'.worker.owner == (match s.controller
                                   case WantSize => Controller
                                   case HasMutex => Free
                                   case _ => s.worker.owner)
    ensures Do(job, s, Control).controller == (match s.controller
                                               case Sleeping => WantSize
                                               case WantSize => HasMutex
                                               case HasMutex => Scale(|s.worker.items|)
                                               case _ => Sleeping)
    ensures s.controller == WantSize ==> s.worker.owner == Free
    ensures s.controller.Joining? ==>
              s.controller.i < |s.threads| && s.threads[s.controller.i].pc == Done
  {
  }

  /** A control step makes the vector longer if and only if the size it knows is over 160; it starts one consumer. */
  lemma StartsExactly(job: Job, s: State)
    requires s.controller.Scale? && Can(job, s, Control)
    ensures |Do(job, s, Control).consumers| > |s.consumers| <==> s.controller.size > 160
    ensures s.controller.size > 160 ==>
              Do(job, s, Control)
              == s.(consumers := s.consumers + [|s.threads|],
                    threads := s.threads + [Thread(Consumer(false), Loop)], controller := Sleeping)
  {
  }

  /**
   A control step makes the vector shorter if and only if the size it knows is under 40 and there is more than one
   consumer. The last one comes off, it is that thread and no other that is cancelled, and the controller waits for it.
   */
  lemma CancelsExactly(job: Job, s: State)
    requires Reachable(job, s) && s.controller.Scale?
    ensures Can(job, s, Control)
    ensures |Do(job, s, Control).consumers| < |s.consumers| <==> s.controller.size < 40 && |s.consumers| > 1
    ensures s.controller.size < 40 && |s.consumers| > 1 ==>
              var s' := Do(job, s, Control);
              var k := s.consumers[|s.consumers| - 1];
              && k < |s.threads| && s.threads[k].role == Consumer(false)
              && s'.consumers + [k] == s.consumers
              && s'.threads == s.threads[k := Thread(Consumer(true), s.threads[k].pc)]
              && s'.controller == Joining(k)
              && s'.(consumers := s.consumers, threads := s.threads, controller := s.controller) == s
  {
    ReachableInv(job, s);
  }

  /** In every other case it goes back to sleep and has changed nothing. */
  lemma OtherwiseSleeps(job: Job, s: State)
    requires Can(job, s, Control) && s.controller.Scale?
    requires 40 <= s.controller.size <= 160 || (s.controller.size < 40 && |s.consumers| <= 1)
    ensures Do(job, s, Control) == s.(controller := Sleeping)
  {
  }

  // ----- The order of the vector -----

  /** Threads are numbered as they are started, so the last consumer in the vector is the one started last. */
  ghost predicate InOrder(s: State) {
    && (forall k :: 0 <= k < |s.consumers| ==> s.consumers[k] < |s.threads|)
    && (forall k, l :: 0 <= k < l < |s.consumers| ==> s.consumers[k] < s.consumers[l])
  }

  lemma OthersKeepVector(job: Job, s: State, a: Action)
    requires Can(job, s, a) && !a.Control?
    ensures var s' := Do(job, s, a);
            |s'.threads| == |s.threads| && s'.consumers == s.consumers && s'.controller == s.controller
  {
    hide WorkStep;
    if a.Work? {
      WorkLeavesOthers(job, s, a.i, a.wakes);
    }
  }

  lemma {:induction false} RunInOrder(job: Job, s: State, run: seq<Action>)
    requires InOrder(s) && Legal(job, s, run)
    ensures InOrder(After(job, s, run))
    decreases |run|
  {
    hide WorkStep;
    if run != [] {
      if !run[0].Control? {
        OthersKeepVector(job, s, run[0]);
      }
      RunInOrder(job, Do(job, s, run[0]), run[1..]);
    }
  }

  lemma StartedLast(job: Job, s: State, k: nat)
    requires Reachable(job, s) && k < |s.consumers| - 1
    ensures s.consumers[k] < s.consumers[|s.consumers| - 1] < |s.threads|
  {
    var run :| Legal(job, Init(job), run) && s == After(job, Init(job), run);
    RunInOrder(job, Init(job), run);
  }

  // ----- How many consumers there are -----

  /** The size that the controller reads in a step, if it does. */
  function SizeRead(s: State, a: Action): seq<nat> {
    if a.Control? && s.controller == HasMutex then [|s.worker.items|] else []
  }

  /** The size that it acts upon. */
  function SizeUsed(s: State, a: Action): seq<nat> {
    if a.Control? && s.controller.Scale? then [s.controller.size] else []
  }

  /** The size that it has read and not yet acted upon. */
  function Known(c: ControllerPc): seq<nat> {
    if c.Scale? then [c.size] else []
  }

  ghost function Readings(job: Job, s: State, run: seq<Action>): seq<nat>
    requires Legal(job, s, run)
    decreases |run|
  {
    if run == [] then [] else SizeRead(s, run[0]) + Readings(job, Do(job, s, run[0]), run[1..])
  }

  ghost function ActedUpon(job: Job, s: State, run: seq<Action>): seq<nat>
    requires Legal(job, s, run)
    decreases |run|
  {
    if run == [] then [] else SizeUsed(s, run[0]) + ActedUpon(job, Do(job, s, run[0]), run[1..])
  }

  lemma StepReads(job: Job, s: State, a: Action)
    requires Can(job, s, a)
    ensures Known(s.controller) + SizeRead(s, a) == SizeUsed(s, a) + Known(Do(job, s, a).controller)
  {
    hide WorkStep;
    if !a.Control? {
      OthersKeepVector(job, s, a);
    }
  }

  /** Every size read is acted upon, once and in order. */
  lemma {:induction false} ActsOnReadings(job: Job, s: State, run: seq<Action>)
    requires Legal(job, s, run)
    ensures Known(s.controller) + Readings(job, s, run)
            == ActedUpon(job, s, run) + Known(After(job, s, run).controller)
    decreases |run|
  {
    hide Do, Can, Known, SizeRead, SizeUsed;
    if run != [] {
      var s1 := Do(job, s, run[0]);
      StepReads(job, s, run[0]);
      ActsOnReadings(job, s1, run[1..]);
      Chain(Known(s.controller), SizeRead(s, run[0]), SizeUsed(s, run[0]), Known(s1.controller),
            Readings(job, s1, run[1..]), ActedUpon(job, s1, run[1..]), Known(After(job, s, run).controller));
    }
  }

  /** How many consumers the sizes lead to: one more for one over 160, one less for one under 40, but never none. */
  function Count(n: nat, sizes: seq<nat>): nat
    decreases |sizes|
  {
    if sizes == [] then n
    else Count(if sizes[0] > 160 then n + 1 else if sizes[0] < 40 && n > 1 then n - 1 else n, sizes[1..])
  }

  lemma ControlCounts(job: Job, s: State)
    requires Inv(job, s) && Can(job, s, Control)
    ensures var n, size := |s.consumers|, if s.controller.Scale? then s.controller.size else 100;
            |Do(job, s, Control).consumers|
            == if size > 160 then n + 1 else if size < 40 && n > 1 then n - 1 else n
  {
  }

  /** Over every run the number of consumers follows from the sizes read. */
  lemma {:induction false} ConsumersCounted(job: Job, s: State, run: seq<Action>)
    requires Inv(job, s) && Legal(job, s, run)
    ensures |After(job, s, run).consumers| == Count(|s.consumers|, ActedUpon(job, s, run))
    decreases |run|
  {
    hide Inv, WorkStep, ControlStep, Can;
    if run != [] {
      StepInv(job, s, run[0]);
      if run[0].Control? {
        ControlCounts(job, s);
      } else {
        OthersKeepVector(job, s, run[0]);
      }
      ConsumersCounted(job, Do(job, s, run[0]), run[1..]);
      var rest := ActedUpon(job, Do(job, s, run[0]), run[1..]);
      if run[0].Control? && s.controller.Scale? {
        assert ActedUpon(job, s, run)[1..] == rest;
      } else {
        assert ActedUpon(job, s, run) == rest;
      }
    }
  }

  lemma {:induction false} CountLow(n: nat, sizes: seq<nat>)
    requires n > 0 && forall size :: size in sizes ==> size < 40
    ensures Count(n, sizes) == if |sizes| < n then n - |sizes| else 1
  {
    if sizes != [] {
      assert sizes[0] in sizes && forall size :: size in sizes[1..] ==> size in sizes;
      CountLow(if n > 1 then n - 1 else n, sizes[1..]);
    }
  }

  /** Enough low readings in a row, whatever else happens, leave exactly one consumer, and none leaves fewer. */
  lemma LowReadingsLeaveOne(job: Job, s: State, run: seq<Action>)
    requires Reachable(job, s) && s.consumers != [] && Legal(job, s, run)
    requires forall size :: size in ActedUpon(job, s, run) ==> size < 40
    ensures var n, low := |s.consumers|, |ActedUpon(job, s, run)|;
            |After(job, s, run).consumers| == if low < n then n - low else 1
  {
    ReachableInv(job, s);
    ConsumersCounted(job, s, run);
    CountLow(|s.consumers|, ActedUpon(job, s, run));
  }

  // ----- What becomes of a cancelled consumer -----

  /** A cancel ends a consumer at its loop test, and only there; a spurious wakeup sends a thread back to the mutex. */
  lemma CancelsAndWakeups(job: Job, s: State, i: nat)
    requires i < |s.threads|
    ensures Can(job, s, Cancelled(i)) <==>
              s.threads[i].role == Consumer(true) && (s.threads[i].pc == Loop || s.threads[i].pc == Enter)
    ensures Can(job, s, Cancelled(i)) ==>
              Do(job, s, Cancelled(i)) == s.(threads := s.threads[i := Thread(Consumer(true), Done)])
    ensures Can(job, s, Spurious(i)) <==>
              (s.threads[i].pc.Enqueue? || s.threads[i].pc.Dequeue?) && s.threads[i].pc.phase == Waiting
    ensures Can(job, s, Spurious(i)) ==>
              Do(job, s, Spurious(i))
              == s.(threads := s.threads[i := s.threads[i].(pc := s.threads[i].pc.(phase := Woken))])
  {
    var pc := s.threads[i].pc;
    if (pc.Enqueue? || pc.Dequeue?) && pc.phase == Waiting {
      assert IsWaiting(s, i, pc.q, if pc.Enqueue? then Full else Empty);
    }
  }

  /** How many more items a cancelled consumer may still take: one, if it has passed its last loop test. */
  function MoreTakes(pc: Pc): nat {
    if pc.Enter? || pc.Dequeue? then 1 else 0
  }

  ghost function TakesOf(job: Job, s: State, run: seq<Action>, k: nat): nat
    requires Legal(job, s, run)
    decreases |run|
  {
    if run == [] then 0
    else (if run[0].Work? && run[0].i == k then |TakenIn(job, s, run[0], WorkerQueue)| else 0)
         + TakesOf(job, Do(job, s, run[0]), run[1..], k)
  }

  lemma CancelledOwn(job: Job, s: State, k: nat, j: nat)
    requires Can(job, s, Work(k, j)) && s.threads[k].role == Consumer(true)
    requires PcOfRole(s.threads[k].role, s.threads[k].pc)
    ensures var s' := WorkStep(job, s, k, j);
            && |s'.threads| == |s.threads| && s'.threads[k].role == Consumer(true)
            && |TakenBy(s, s', k, WorkerQueue)| + MoreTakes(s'.threads[k].pc) <= MoreTakes(s.threads[k].pc)
  {
  }

  lemma CancelledInWork(job: Job, s: State, i: nat, j: nat, k: nat)
    requires i < |s.threads| && k < |s.threads| && k != i
    ensures var s' := WorkStep(job, s, i, j);
            && |s'.threads| == |s.threads| && s'.threads[k].role == s.threads[k].role
            && MoreTakes(s'.threads[k].pc) == MoreTakes(s.threads[k].pc)
  {
    hide WorkStep;
    WorkLeavesOthers(job, s, i, j);
    assert Left(s.threads[k], WorkStep(job, s, i, j).threads[k]);
  }

  lemma CancelledInControl(s: State, k: nat)
    requires k < |s.threads| && s.threads[k].role == Consumer(true)
    ensures var s' := ControlStep(s);
            |s.threads| <= |s'.threads| && s'.threads[k] == s.threads[k]
  {
  }

  lemma CancelledOther(job: Job, s: State, a: Action, k: nat)
    requires Can(job, s, a) && k < |s.threads| && s.threads[k].role == Consumer(true)
    requires a.Work? ==> a.i != k
    ensures var s' := Do(job, s, a);
            && |s.threads| <= |s'.threads| && s'.threads[k].role == Consumer(true)
            && MoreTakes(s'.threads[k].pc) <= MoreTakes(s.threads[k].pc)
  {
    hide WorkStep, ControlStep;
    match a
    case Work(i, j) => CancelledInWork(job, s, i, j, k);
    case Control => CancelledInControl(s, k);
    case Cancelled(i) =>
    case Spurious(i) =>
  }

  lemma MoreTakesOne(pc: Pc)
    ensures MoreTakes(pc) <= 1
  {
  }

  /** Over every run, a consumer takes at most one item after it has been cancelled, and stays cancelled. */
  lemma {:induction false} CancelledTakesOneAtMost(job: Job, s: State, run: seq<Action>, k: nat)
    requires Inv(job, s) && Legal(job, s, run) && k < |s.threads| && s.threads[k].role == Consumer(true)
    ensures var s' := After(job, s, run);
            && k < |s'.threads| && s'.threads[k].role == Consumer(true)
            && TakesOf(job, s, run, k) + MoreTakes(s'.threads[k].pc) <= MoreTakes(s.threads[k].pc) <= 1
    decreases |run|
  {
    hide Inv, WorkStep, ControlStep, MoreTakes;
    MoreTakesOne(s.threads[k].pc);
    if run != [] {
      StepInv(job, s, run[0]);
      if run[0].Work? && run[0].i == k {
        RoleOf(job, s, k);
        CancelledOwn(job, s, k, run[0].wakes);
      } else {
        CancelledOther(job, s, run[0], k);
      }
      CancelledTakesOneAtMost(job, Do(job, s, run[0]), run[1..], k);
    }
  }
}
