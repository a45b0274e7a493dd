/**
 threads/thread.cc and threads/scheduler.cc: where each thread is, who runs next, and when a finished thread is
 destroyed. A context switch is a change of the current thread; each step below runs with interrupts off.
 */
module Threads {
  import opened Sums

  datatype Status = Running | Ready | Blocked

  /** What the current thread is doing: its own work, or Thread::Sleep's loop. */
  datatype Phase = Working | Sleeping(finishing: bool)

  /**
   `queues` are the semaphores' queues. `enqueued` and `dispatched` remember the calls of ReadyToRun
   and of Run, `destroyed` the threads deleted, each in order.
   */
  datatype State = State(
    current: nat,
    phase: Phase,
    ready: seq<nat>,
    queues: seq<seq<nat>>,
    status: seq<Status>,
    destroyed: seq<nat>,
    enqueued: seq<nat>,
    dispatched: seq<nat>)

  /** The main thread runs and is alone. */
  function Init(semaphores: nat): State {
    State(0, Working, [], seq(semaphores, _ => []), [Running], [], [], [])
  }

  datatype Action =
    | Fork           // the current thread creates a thread and forks it
    | Yield
    | Block(q: nat)  // P finds the value zero: onto the queue, and Sleep(FALSE)
    | Finish         // Sleep(TRUE)
    | Wake(q: nat)   // V, from a thread or an interrupt handler
    | Dispatch       // Sleep's loop finds a thread to run

  predicate Can(s: State, a: Action) {
    match a
    case Fork => s.phase.Working?
    case Yield => s.phase.Working?
    case Block(q) => s.phase.Working? && q < |s.queues|
    case Finish => s.phase.Working?
    case Wake(q) => q < |s.queues|
    case Dispatch => s.phase.Sleeping? && s.ready != []
  }

  function WithStatus(status: seq<Status>, t: nat, st: Status): seq<Status> {
    if t < |status| then status[t := st] else status
  }

  function MadeReady(s: State, t: nat): State {
    s.(status := WithStatus(s.status, t, Ready), ready := s.ready + [t], enqueued := s.enqueued + [t])
  }

  /** FindNextToRun and Run, and CheckToBeDestroyed in the thread that comes to run. */
  function RunNext(s: State, finishing: bool): State
    requires s.ready != []
  {
    var next := s.ready[0];
    s.(current := next, phase := Working, ready := s.ready[1..],
       status := WithStatus(s.status, next, Running),
       destroyed := if finishing then s.destroyed + [s.current] else s.destroyed,
       dispatched := s.dispatched + [next])
  }

  function Do(s: State, a: Action): State
    requires Can(s, a)
  {
    match a
    case Fork => MadeReady(s.(status := s.status + [Ready]), |s.status|)
    case Yield =>
      if s.ready == [] then s
      else
        var next := s.ready[0];
        var s' := MadeReady(s.(ready := s.ready[1..]), s.current);
        RunNext(s'.(ready := [next] + s'.ready), false)
    case Block(q) =>
      s.(status := WithStatus(s.status, s.current, Blocked), phase := Sleeping(false),
         queues := s.queues[q := s.queues[q] + [s.current]])
    case Finish => s.(status := WithStatus(s.status, s.current, Blocked), phase := Sleeping(true))
    case Wake(q) =>
      if s.queues[q] == [] then s
      else MadeReady(s.(queues := s.queues[q := s.queues[q][1..]]), s.queues[q][0])
    case Dispatch => RunNext(s, s.phase.finishing)
  }

  predicate Legal(s: State, run: seq<Action>)
    decreases |run|
  {
    run == [] || (Can(s, run[0]) && Legal(Do(s, run[0]), run[1..]))
  }

  function After(s: State, run: seq<Action>): State
    requires Legal(s, run)
    decreases |run|
  {
    if run == [] then s else After(Do(s, run[0]), run[1..])
  }

  // ----- The invariant -----

  function Holds(t: nat): seq<nat> -> nat {
    (q: seq<nat>) => multiset(q)[t]
  }

  function One(b: bool): nat {
    if b then 1 else 0
  }

  /** The current thread, unless it is asleep on a queue. */
  predicate OnCpu(s: State, t: nat) {
    t == s.current && (s.phase.Working? || s.phase.finishing)
  }

  /** In how many places a thread is. */
  function Places(s: State, t: nat): nat {
    One(OnCpu(s, t)) + multiset(s.ready)[t] + Sum(s.queues, Holds(t)) + multiset(s.destroyed)[t]
  }

  /** Every thread ever forked is in exactly one place. */
  ghost predicate OnePlace(s: State) {
    forall t: nat :: Places(s, t) == One(t < |s.status|)
  }

  ghost predicate StatusOk(s: State) {
    forall t: nat :: t < |s.status| ==>
      && (s.status[t] == Ready <==> t in s.ready)
      && (s.status[t] == Running <==> s.phase.Working? && t == s.current)
  }

  ghost predicate Inv(s: State) {
    && OnePlace(s)
    && StatusOk(s)
    && s.enqueued == s.dispatched + s.ready
  }

  lemma QueueSet(queues: seq<seq<nat>>, q: nat, queue: seq<nat>, t: nat)
    requires q < |queues|
    ensures Sum(queues[q := queue], Holds(t)) + multiset(queues[q])[t] == Sum(queues, Holds(t)) + multiset(queue)[t]
  {
    SumUpdate(queues, q, queue, Holds(t));
  }

  /** A thread asleep on a queue is not ready, and no other thread's business. */
  lemma Asleep(s: State, q: nat, t: nat)
    requires Inv(s) && q < |s.queues| && t in s.queues[q]
    ensures t < |s.status| && t !in s.ready && !OnCpu(s, t) && multiset(s.queues[q])[t] == 1
  {
    SumAtLeast(s.queues, q, Holds(t));
    assert Places(s, t) <= 1;
  }

  lemma InReady(s: State, t: nat)
    requires Inv(s) && t in s.ready
    ensures t < |s.status| && !OnCpu(s, t) && multiset(s.ready)[t] == 1 && t !in s.destroyed
  {
    assert Places(s, t) <= 1;
  }

  lemma ForkInv(s: State)
    requires Inv(s) && Can(s, Fork)
    ensures Inv(Do(s, Fork))
  {
    var s' := Do(s, Fork);
    forall t: nat ensures Places(s', t) == One(t < |s'.status|) {
      assert Places(s, t) == One(t < |s.status|);
    }
    assert Places(s, |s.status|) == 0;
  }

  lemma DispatchInv(s: State)
    requires Inv(s) && Can(s, Dispatch)
    ensures Inv(Do(s, Dispatch))
  {
    var s' := Do(s, Dispatch);
    var next := s.ready[0];
    assert s.ready == [next] + s.ready[1..];
    InReady(s, next);
    forall t: nat ensures Places(s', t) == One(t < |s'.status|) {
      assert Places(s, t) == One(t < |s.status|);
    }
  }

  lemma YieldPlaces(s: State)
    requires Inv(s) && s.phase.Working? && s.ready != []
    ensures OnePlace(Do(s, Yield))
  {
    hide StatusOk;
    var s' := Do(s, Yield);
    assert s.ready == [s.ready[0]] + s.ready[1..] && s'.ready == s.ready[1..] + [s.current];
    forall t: nat ensures Places(s', t) == One(t < |s'.status|) {
      assert Places(s, t) == One(t < |s.status|);
    }
  }

  lemma YieldInv(s: State)
    requires Inv(s) && Can(s, Yield)
    ensures Inv(Do(s, Yield))
  {
    hide OnePlace;
    if s.ready != [] {
      YieldPlaces(s);
      CurrentApart(s);
      var s' := Do(s, Yield);
      assert s.ready == [s.ready[0]] + s.ready[1..] && s'.ready == s.ready[1..] + [s.current];
      InReady(s, s.ready[0]);
    }
  }

  lemma CurrentApart(s: State)
    requires Inv(s) && s.phase.Working?
    ensures s.current < |s.status| && s.current !in s.ready
  {
    assert Places(s, s.current) == One(s.current < |s.status|);
  }

  lemma BlockInv(s: State, q: nat)
    requires Inv(s) && Can(s, Block(q))
    ensures Inv(Do(s, Block(q)))
  {
    var s' := Do(s, Block(q));
    forall t: nat ensures Places(s', t) == One(t < |s'.status|) {
      QueueSet(s.queues, q, s.queues[q] + [s.current], t);
      assert Places(s, t) == One(t < |s.status|);
    }
    assert Places(s, s.current) <= 1;
  }

  lemma FinishInv(s: State)
    requires Inv(s) && Can(s, Finish)
    ensures Inv(Do(s, Finish))
  {
    var s' := Do(s, Finish);
    forall t: nat ensures Places(s', t) == One(t < |s'.status|) {
      assert Places(s, t) == One(t < |s.status|);
    }
    assert Places(s, s.current) <= 1;
  }

  lemma WakeInv(s: State, q: nat)
    requires Inv(s) && Can(s, Wake(q))
    ensures Inv(Do(s, Wake(q)))
  {
    if s.queues[q] != [] {
      var s' := Do(s, Wake(q));
      var first := s.queues[q][0];
      assert s.queues[q] == [first] + s.queues[q][1..];
      Asleep(s, q, first);
      forall t: nat ensures Places(s', t) == One(t < |s'.status|) {
        QueueSet(s.queues, q, s.queues[q][1..], t);
        assert Places(s, t) == One(t < |s.status|);
      }
    }
  }

  lemma StepInv(s: State, a: Action)
    requires Inv(s) && Can(s, a)
    ensures Inv(Do(s, a))
  {
    hide Inv, Do;
    match a
    case Fork => ForkInv(s);
    case Yield => YieldInv(s);
    case Block(q) => BlockInv(s, q);
    case Finish => FinishInv(s);
    case Wake(q) => WakeInv(s, q);
    case Dispatch => DispatchInv(s);
  }

  lemma InitInv(semaphores: nat)
    ensures Inv(Init(semaphores))
  {
    var s := Init(semaphores);
    forall t: nat ensures Places(s, t) == One(t < |s.status|) {
      SumZero(s.queues, Holds(t));
    }
  }

  lemma {:induction false} RunInv(s: State, run: seq<Action>)
    requires Inv(s) && Legal(s, run)
    ensures Inv(After(s, run))
    decreases |run|
  {
    hide Inv;
    if run != [] {
      StepInv(s, run[0]);
      RunInv(Do(s, run[0]), run[1..]);
    }
  }

  ghost predicate Reachable(s: State) {
    exists semaphores, run :: Legal(Init(semaphores), run) && s == After(Init(semaphores), run)
  }

  lemma ReachableInv(s: State)
    requires Reachable(s)
    ensures Inv(s)
  {
    var semaphores, run :| Legal(Init(semaphores), run) && s == After(Init(semaphores), run);
    InitInv(semaphores);
    RunInv(Init(semaphores), run);
  }

  // ----- What the scheduler promises, over every run -----

  /** A live thread is running, or once in the ready list, or once on one queue; and never two of these. */
  lemma OnePlaceOnly(s: State, t: nat)
    requires Reachable(s)
    ensures Places(s, t) == One(t < |s.status|)
    ensures t in s.ready ==> multiset(s.ready)[t] == 1 && !OnCpu(s, t) && t !in s.destroyed
    ensures t in s.destroyed ==> multiset(s.destroyed)[t] == 1 && !OnCpu(s, t)
    ensures t < |s.status| ==> (s.status[t] == Ready <==> t in s.ready)
  {
    ReachableInv(s);
    assert Places(s, t) == One(t < |s.status|);
  }

  /** A run adds to the histories and takes nothing back. */
  ghost predicate Extends(s: State, s': State) {
    s.enqueued <= s'.enqueued && s.dispatched <= s'.dispatched && s.destroyed <= s'.destroyed
  }

  lemma {:induction false} RunExtends(s: State, run: seq<Action>)
    requires Legal(s, run)
    ensures Extends(s, After(s, run))
    decreases |run|
  {
    if run != [] {
      StepExtends(s, run[0]);
      RunExtends(Do(s, run[0]), run[1..]);
    }
  }

  lemma StepExtends(s: State, a: Action)
    requires Can(s, a)
    ensures Extends(s, Do(s, a))
  {
  }

  /** First come, first served: the ready thread with k ahead of it is the (k+1)-th to be dispatched. */
  lemma FirstComeFirstServed(s: State, run: seq<Action>, k: nat)
    requires Reachable(s) && Legal(s, run) && k < |s.ready|
    requires |After(s, run).dispatched| > |s.dispatched| + k
    ensures After(s, run).dispatched[|s.dispatched| + k] == s.ready[k]
  {
    ReachableInv(s);
    RunInv(s, run);
    RunExtends(s, run);
    var s' := After(s, run);
    var j := |s.dispatched| + k;
    assert s.enqueued[j] == s.ready[k] && s'.enqueued[j] == s'.dispatched[j];
  }

  /** A destroyed thread stays destroyed and is never dispatched again. */
  lemma {:induction false} NeverAgain(s: State, run: seq<Action>, t: nat)
    requires Inv(s) && Legal(s, run) && t in s.destroyed
    ensures t in After(s, run).destroyed
    ensures |s.dispatched| <= |After(s, run).dispatched| && t !in After(s, run).dispatched[|s.dispatched|..]
    decreases |run|
  {
    if run != [] {
      var s1 := Do(s, run[0]);
      StepInv(s, run[0]);
      StepExtends(s, run[0]);
      DispatchesAnother(s, run[0], t);
      NeverAgain(s1, run[1..], t);
      RunExtends(s1, run[1..]);
      var d := After(s, run).dispatched;
      assert d[|s.dispatched|..] == s1.dispatched[|s.dispatched|..] + d[|s1.dispatched|..];
    }
  }

  lemma DispatchesAnother(s: State, a: Action, t: nat)
    requires Inv(s) && Can(s, a) && t in s.destroyed
    ensures |s.dispatched| <= |Do(s, a).dispatched| && t !in Do(s, a).dispatched[|s.dispatched|..]
    ensures t in Do(s, a).destroyed
  {
    if s.ready != [] {
      InReady(s, s.ready[0]);
    }
  }

  // ----- The objects -----

  /** `kernel->currentThread` and the scheduler. The queues are those of the semaphores. */
  class Scheduler {
    var currentThread: nat
    var phase: Phase
    var readyList: seq<nat>
    var toBeDestroyed: seq<nat>     // none or one
    var queues: seq<seq<nat>>
    var status: seq<Status>
    ghost var destroyed: seq<nat>
    ghost var enqueued: seq<nat>
    ghost var dispatched: seq<nat>

    ghost function Value(): State
      reads this
    {
      State(currentThread, phase, readyList, queues, status, destroyed, enqueued, dispatched)
    }

    /** Between switches no thread waits to be destroyed. */
    ghost predicate Valid()
      reads this
    {
      Inv(Value()) && toBeDestroyed == []
    }

    constructor (semaphores: nat)
      ensures Valid() && Value() == Init(semaphores)
    {
      currentThread, phase, readyList, toBeDestroyed := 0, Working, [], [];
      queues, status := seq(semaphores, _ => []), [Running];
      destroyed, enqueued, dispatched := [], [], [];
      InitInv(semaphores);
    }

    method ReadyToRun(thread: nat)
      requires thread < |status| && thread !in readyList
      modifies this`status, this`readyList, this`enqueued
      ensures Value() == MadeReady(old(Value()), thread)
      ensures readyList == old(readyList) + [thread] && status == old(status)[thread := Ready]
    {
      status := status[thread := Ready];
      readyList := readyList + [thread];
      enqueued := enqueued + [thread];
    }

    method FindNextToRun() returns (next: seq<nat>)
      modifies this`readyList
      ensures next + readyList == old(readyList) && |next| <= 1 && (next == [] <==> old(readyList) == [])
    {
      next := [];
      if readyList != [] {
        next, readyList := readyList[..1], readyList[1..];
      }
    }

    /** The switch to nextThread; a finishing thread is destroyed once another one runs. */
    method Run(nextThread: nat, finishing: bool)
      requires nextThread < |status| && toBeDestroyed == []
      modifies this`currentThread, this`phase, this`status, this`toBeDestroyed, this`destroyed, this`dispatched
      ensures toBeDestroyed == []
      ensures Value() == old(Value()).(current := nextThread, phase := Working,
                status := old(status)[nextThread := Running], dispatched := old(dispatched) + [nextThread],
                destroyed := if finishing then old(destroyed) + [old(currentThread)] else old(destroyed))
    {
      var oldThread := currentThread;
      if finishing {
        toBeDestroyed := [oldThread];
      }
      currentThread, phase := nextThread, Working;
      status := status[nextThread := Running];
      dispatched := dispatched + [nextThread];
      CheckToBeDestroyed();
    }

    method CheckToBeDestroyed()
      modifies this`toBeDestroyed, this`destroyed
      ensures toBeDestroyed == [] && destroyed == old(destroyed) + old(toBeDestroyed)
    {
      destroyed := destroyed + toBeDestroyed;
      toBeDestroyed := [];
    }

    /** Thread::Fork, for a thread just created. */
    method Fork() returns (thread: nat)
      requires Valid() && phase.Working?
      modifies this
      ensures Valid() && Value() == Do(old(Value()), Action.Fork)
      ensures thread == old(|status|) && status == old(status) + [Ready] && readyList == old(readyList) + [thread]
      ensures currentThread == old(currentThread) && phase == old(phase) && queues == old(queues)
    {
      ForkInv(Value());
      NotYetThere(Value());
      thread := |status|;
      status := status + [Ready];
      ReadyToRun(thread);
    }

    method Yield()
      requires Valid() && phase.Working?
      modifies this
      ensures Valid() && Value() == Do(old(Value()), Action.Yield)
      ensures old(readyList) == [] ==> Value() == old(Value())
      ensures old(readyList) != [] ==>
                && old(currentThread) < |old(status)| && old(readyList)[0] < |old(status)|
                && currentThread == old(readyList)[0] && readyList == old(readyList)[1..] + [old(currentThread)]
                && status == old(status)[old(currentThread) := Ready][currentThread := Running]
                && dispatched == old(dispatched) + [currentThread]
                && enqueued == old(enqueued) + [old(currentThread)]
      ensures phase.Working? && queues == old(queues) && destroyed == old(destroyed)
    {
      YieldInv(Value());
      CurrentApart(Value());
      var nextThread := FindNextToRun();
      if nextThread != [] {
        InReady(old(Value()), nextThread[0]);
        ReadyToRun(currentThread);
        Run(nextThread[0], false);
      }
    }

    /** Thread::Sleep, up to its loop: blocked, and on no queue but the one it is put on first. */
    method Sleep(q: nat, finishing: bool)
      requires Valid() && phase.Working? && q < |queues|
      modifies this
      ensures Valid() && Value() == Do(old(Value()), if finishing then Action.Finish else Block(q))
      ensures currentThread == old(currentThread) < |old(status)| && readyList == old(readyList)
      ensures phase == Sleeping(finishing) && status == old(status)[currentThread := Blocked]
      ensures queues == if finishing then old(queues) else old(queues)[q := old(queues)[q] + [currentThread]]
      ensures destroyed == old(destroyed) && dispatched == old(dispatched) && enqueued == old(enqueued)
    {
      CurrentApart(Value());
      BlockInv(Value(), q);
      FinishInv(Value());
      if !finishing {
        queues := queues[q := queues[q] + [currentThread]];
      }
      status := status[currentThread := Blocked];
      phase := Sleeping(finishing);
    }

    /** The loop of Thread::Sleep; false if it has to idle until an interrupt. */
    method SleepLoop() returns (found: bool)
      requires Valid() && phase.Sleeping?
      modifies this
      ensures Valid() && (found <==> old(readyList) != [])
      ensures Value() == if found then Do(old(Value()), Action.Dispatch) else old(Value())
      ensures found ==>
                && currentThread == old(readyList)[0] < |old(status)| && readyList == old(readyList)[1..]
                && phase == Working && status == old(status)[currentThread := Running]
                && dispatched == old(dispatched) + [currentThread]
                && destroyed == old(destroyed) + (if old(phase).finishing then [old(currentThread)] else [])
      ensures queues == old(queues) && enqueued == old(enqueued)
    {
      var nextThread := FindNextToRun();
      found := nextThread != [];
      if found {
        DispatchInv(old(Value()));
        InReady(old(Value()), nextThread[0]);
        Run(nextThread[0], phase.finishing);
      }
    }

    /** Semaphore::V on a queue. */
    method Wake(q: nat)
      requires Valid() && q < |queues|
      modifies this
      ensures Valid() && Value() == Do(old(Value()), Action.Wake(q))
      ensures old(queues)[q] == [] ==> Value() == old(Value())
      ensures old(queues)[q] != [] ==>
                var thread := old(queues)[q][0];
                && thread < |old(status)| && status == old(status)[thread := Ready]
                && readyList == old(readyList) + [thread] && enqueued == old(enqueued) + [thread]
                && queues == old(queues)[q := old(queues)[q][1..]]
      ensures currentThread == old(currentThread) && phase == old(phase)
      ensures destroyed == old(destroyed) && dispatched == old(dispatched)
    {
      WakeInv(Value(), q);
      if queues[q] != [] {
        Asleep(Value(), q, queues[q][0]);
        var thread := queues[q][0];
        queues := queues[q := queues[q][1..]];
        ReadyToRun(thread);
      }
    }
  }

  lemma NotYetThere(s: State)
    requires Inv(s)
    ensures |s.status| !in s.ready
  {
    assert Places(s, |s.status|) == 0;
  }
}
