/**
 threads/synch.cc: semaphores and locks. Interrupts are off while a thread tests a semaphore or
 gives it back, so each of these is one step, and threads interleave between the
 steps. Wakeups are Mesa style: a woken thread tests again, and another may have got in first.
 */
module Semaphores {
  import opened Sums

  datatype Sem = Sem(value: nat, queue: seq<nat>)

  /** Where a thread stands with respect to one semaphore. */
  datatype Use =
    | Away
    | Testing(woken: bool)   // in P, about to test the value
    | Queued                 // in P, asleep on the queue
    | Through                // holds the lock the semaphore stands for

  /** P's test when the value is positive. */
  function Taken(s: Sem): Sem
    requires s.value > 0
  {
    Sem(s.value - 1, s.queue)
  }

  /** P's test when the value is zero. */
  function Joined(s: Sem, me: nat): Sem {
    Sem(s.value, s.queue + [me])
  }

  /** V takes the first sleeper off the queue and increments the value. */
  function Given(s: Sem): Sem {
    Sem(s.value + 1, if s.queue == [] then [] else s.queue[1..])
  }

  class Semaphore {
    var value: int
    var queue: seq<nat>

    ghost predicate Valid()
      reads this
    {
      value >= 0
    }

    ghost function State(): Sem
      requires Valid()
      reads this
    {
      Sem(value, queue)
    }

    constructor (initialValue: nat)
      ensures Valid() && State() == Sem(initialValue, [])
    {
      value, queue := initialValue, [];
    }

    /** One pass of P's loop: get through, or go to sleep. */
    method P(currentThread: nat) returns (through: bool)
      requires Valid()
      modifies this
      ensures Valid() && (through <==> old(State()).value > 0)
      ensures State() == if through then Taken(old(State())) else Joined(old(State()), currentThread)
      ensures value == (if through then old(value) - 1 else 0)
      ensures queue == old(queue) + (if through then [] else [currentThread])
    {
      if value == 0 {
        queue := queue + [currentThread];
        return false;
      }
      value := value - 1;
      through := true;
    }

    /** The threads made ready: at most one, the one asleep longest. */
    method V() returns (ready: seq<nat>)
      requires Valid()
      modifies this
      ensures Valid() && State() == Given(old(State())) && value == old(value) + 1
      ensures ready + queue == old(queue) && |ready| <= 1 && (ready == [] <==> old(queue) == [])
    {
      ready := [];
      if queue != [] {
        ready, queue := queue[..1], queue[1..];
      }
      value := value + 1;
    }
  }

  // ----- What every step keeps -----

  /** The queue holds every sleeper once, and nobody else. */
  ghost predicate QueueExact<T>(q: seq<nat>, ts: seq<T>, use: T -> Use) {
    && (forall k :: 0 <= k < |q| ==> q[k] < |ts| && use(ts[q[k]]) == Queued)
    && (forall k, l :: 0 <= k < l < |q| ==> q[k] != q[l])
    && (forall i: nat :: i < |ts| && use(ts[i]) == Queued ==> i in q)
  }

  function Is<T>(use: T -> Use, u: Use): T -> nat {
    t => if use(t) == u then 1 else 0
  }

  function Number<T>(ts: seq<T>, use: T -> Use, u: Use): nat {
    Sum(ts, Is(use, u))
  }

  /** While threads sleep, every unit of the value has a woken thread on its way. */
  ghost predicate NoneLost<T>(s: Sem, ts: seq<T>, use: T -> Use) {
    s.queue != [] ==> s.value <= Number(ts, use, Testing(true))
  }

  ghost predicate SemOk<T>(s: Sem, ts: seq<T>, use: T -> Use) {
    QueueExact(s.queue, ts, use) && NoneLost(s, ts, use)
  }

  /** At most one thread is inside, and nobody is exactly when the value is 1. */
  ghost predicate LockOk<T>(s: Sem, ts: seq<T>, use: T -> Use) {
    SemOk(s, ts, use) && s.value + Number(ts, use, Through) == 1
  }

  lemma NumberSet<T>(ts: seq<T>, i: nat, t: T, use: T -> Use, u: Use)
    requires i < |ts|
    ensures Number(ts[i := t], use, u) + Is(use, u)(ts[i]) == Number(ts, use, u) + Is(use, u)(t)
  {
    SumUpdate(ts, i, t, Is(use, u));
  }

  /** A step that has nothing to do with the semaphore. */
  lemma Elsewhere<T>(s: Sem, ts: seq<T>, i: nat, t: T, use: T -> Use)
    requires SemOk(s, ts, use) && i < |ts|
    requires use(t) == use(ts[i]) || (use(ts[i]) != Queued && use(ts[i]) != Testing(true) && use(t) != Queued)
    ensures SemOk(s, ts[i := t], use)
  {
    NumberSet(ts, i, t, use, Testing(true));
  }

  lemma TestPasses<T>(s: Sem, ts: seq<T>, i: nat, t: T, use: T -> Use)
    requires SemOk(s, ts, use) && i < |ts| && use(ts[i]).Testing? && s.value > 0 && use(t) != Queued
    ensures SemOk(Taken(s), ts[i := t], use)
  {
    NumberSet(ts, i, t, use, Testing(true));
  }

  lemma TestSleeps<T>(s: Sem, ts: seq<T>, i: nat, t: T, use: T -> Use)
    requires SemOk(s, ts, use) && i < |ts| && use(ts[i]).Testing? && s.value == 0 && use(t) == Queued
    ensures i !in s.queue && SemOk(Joined(s, i), ts[i := t], use)
  {
    var q := s.queue + [i];
    assert forall k :: 0 <= k < |s.queue| ==> q[k] == s.queue[k];
    assert forall j :: j in s.queue ==> j in q;
    assert q[|q| - 1] == i;
  }

  lemma GiveWakes<T>(s: Sem, ts: seq<T>, t: T, use: T -> Use)
    requires SemOk(s, ts, use) && s.queue != [] && use(t) == Testing(true)
    ensures s.queue[0] < |ts| && SemOk(Given(s), ts[s.queue[0] := t], use)
  {
    var q := s.queue;
    NumberSet(ts, q[0], t, use, Testing(true));
    assert forall k :: 0 <= k < |q| - 1 ==> q[1..][k] == q[k + 1];
    forall j: nat | j < |ts| && use(ts[q[0] := t][j]) == Queued ensures j in q[1..] {
      assert j in q && j != q[0];
    }
  }

  lemma GiveStores<T>(s: Sem, ts: seq<T>, use: T -> Use)
    requires SemOk(s, ts, use) && s.queue == []
    ensures SemOk(Given(s), ts, use)
  {
  }

  /** A positive value with threads asleep: one of them has been woken and its next test passes. */
  lemma SomeoneGetsThrough<T>(s: Sem, ts: seq<T>, use: T -> Use) returns (i: nat)
    requires SemOk(s, ts, use) && s.queue != [] && s.value > 0
    ensures i < |ts| && use(ts[i]) == Testing(true)
  {
    i := SumWitness(ts, Is(use, Testing(true)));
  }

  lemma OneHolder<T>(s: Sem, ts: seq<T>, use: T -> Use, i: nat, j: nat)
    requires LockOk(s, ts, use) && i < |ts| && j < |ts| && use(ts[i]) == Through && use(ts[j]) == Through
    ensures i == j && s.value == 0
  {
    SumAtLeast(ts, i, Is(use, Through));
    if i != j {
      SumTwo(ts, i, j, Is(use, Through));
    }
  }

  lemma NobodyInside<T>(s: Sem, ts: seq<T>, use: T -> Use)
    requires LockOk(s, ts, use) && forall i :: 0 <= i < |ts| ==> use(ts[i]) != Through
    ensures s.value == 1
  {
    SumZero(ts, Is(use, Through));
  }

  // ----- Locks: the same steps -----

  lemma LockElsewhere<T>(s: Sem, ts: seq<T>, i: nat, t: T, use: T -> Use)
    requires LockOk(s, ts, use) && i < |ts|
    requires use(t) == use(ts[i]) || (use(ts[i]).Away? && use(t) == Testing(false))
    ensures LockOk(s, ts[i := t], use)
  {
    Elsewhere(s, ts, i, t, use);
    NumberSet(ts, i, t, use, Through);
  }

  lemma LockPasses<T>(s: Sem, ts: seq<T>, i: nat, t: T, use: T -> Use)
    requires LockOk(s, ts, use) && i < |ts| && use(ts[i]).Testing? && s.value > 0 && use(t) == Through
    ensures LockOk(Taken(s), ts[i := t], use)
  {
    TestPasses(s, ts, i, t, use);
    NumberSet(ts, i, t, use, Through);
  }

  lemma LockSleeps<T>(s: Sem, ts: seq<T>, i: nat, t: T, use: T -> Use)
    requires LockOk(s, ts, use) && i < |ts| && use(ts[i]).Testing? && s.value == 0 && use(t) == Queued
    ensures i !in s.queue && LockOk(Joined(s, i), ts[i := t], use)
  {
    TestSleeps(s, ts, i, t, use);
    NumberSet(ts, i, t, use, Through);
  }

  /** The holder `i` goes on as t, and the first sleeper, if any, as `woken`. */
  function AfterUnlock<T>(s: Sem, ts: seq<T>, i: nat, t: T, woken: T): seq<T>
    requires i < |ts| && forall k :: 0 <= k < |s.queue| ==> s.queue[k] < |ts|
  {
    var ts' := ts[i := t];
    if s.queue == [] then ts' else ts'[s.queue[0] := woken]
  }

  lemma Unlocks<T>(s: Sem, ts: seq<T>, i: nat, t: T, woken: T, use: T -> Use)
    requires LockOk(s, ts, use) && i < |ts| && use(ts[i]) == Through && use(t).Away?
    requires s.queue != [] ==> use(woken) == Testing(true)
    ensures LockOk(Given(s), AfterUnlock(s, ts, i, t, woken), use)
  {
    Elsewhere(s, ts, i, t, use);
    NumberSet(ts, i, t, use, Through);
    if s.queue == [] {
      GiveStores(s, ts[i := t], use);
    } else {
      GiveWakes(s, ts[i := t], woken, use);
      NumberSet(ts[i := t], s.queue[0], woken, use, Through);
    }
  }
}

/** One semaphore under any interleaving of any number of threads and interrupt handlers. */
module SemaphoreRuns {
  import opened Semaphores

  /** `ps` and `vs` count the calls of P and V that have completed. */
  datatype State = State(sem: Sem, threads: seq<Use>, ps: nat, vs: nat)

  datatype Action =
    | CallP(i: nat)   // thread i enters P
    | Test(i: nat)    // thread i tests the value, for the first time or after a wakeup
    | V               // some thread or interrupt handler calls V

  function Init(value: nat, threads: nat): State {
    State(Sem(value, []), seq(threads, _ => Away), 0, 0)
  }

  predicate Can(s: State, a: Action) {
    match a
    case CallP(i) => i < |s.threads| && s.threads[i] == Away
    case Test(i) => i < |s.threads| && s.threads[i].Testing?
    case V => forall k :: 0 <= k < |s.sem.queue| ==> s.sem.queue[k] < |s.threads|
  }

  function Do(s: State, a: Action): State
    requires Can(s, a)
  {
    match a
    case CallP(i) => s.(threads := s.threads[i := Testing(false)])
    case Test(i) =>
      if s.sem.value > 0 then s.(sem := Taken(s.sem), threads := s.threads[i := Away], ps := s.ps + 1)
      else s.(sem := Joined(s.sem, i), threads := s.threads[i := Queued])
    case V =>
      s.(sem := Given(s.sem), vs := s.vs + 1,
         threads := if s.sem.queue == [] then s.threads else s.threads[s.sem.queue[0] := Testing(true)])
  }

  predicate Legal(s: State, run: seq<Action>)
    decreases |run|
  {
    run == [] || (Can(s, run[0]) && Legal(Do(s, run[0]), run[1..]))
  }

  function After(s: State, run: seq<Action>): State
    requires Legal(s, run)
    decreases |run|
  {
    if run == [] then s else After(Do(s, run[0]), run[1..])
  }

  function Itself(u: Use): Use {
    u
  }

  ghost predicate Inv(initial: nat, s: State) {
    && SemOk(s.sem, s.threads, Itself)
    && s.sem.value + s.ps == initial + s.vs
  }

  lemma StepInv(initial: nat, s: State, a: Action)
    requires Inv(initial, s) && Can(s, a)
    ensures Inv(initial, Do(s, a))
  {
    match a
    case CallP(i) => Elsewhere(s.sem, s.threads, i, Testing(false), Itself);
    case Test(i) =>
      if s.sem.value > 0 {
        TestPasses(s.sem, s.threads, i, Away, Itself);
      } else {
        TestSleeps(s.sem, s.threads, i, Queued, Itself);
      }
    case V =>
      if s.sem.queue != [] {
        GiveWakes(s.sem, s.threads, Testing(true), Itself);
      } else {
        GiveStores(s.sem, s.threads, Itself);
      }
  }

  lemma {:induction false} RunInv(initial: nat, s: State, run: seq<Action>)
    requires Inv(initial, s) && Legal(s, run)
    ensures Inv(initial, After(s, run))
    decreases |run|
  {
    if run != [] {
      StepInv(initial, s, run[0]);
      RunInv(initial, Do(s, run[0]), run[1..]);
    }
  }

  /**
   Over every run: the value is what was put in and not taken out; the queue holds just the sleepers,
   each once; and as long as anyone sleeps, the value is covered by threads that have been woken.
   */
  lemma SemaphoreCounts(initial: nat, threads: nat, run: seq<Action>)
    requires Legal(Init(initial, threads), run)
    ensures var s := After(Init(initial, threads), run);
            && s.sem.value == initial + s.vs - s.ps
            && QueueExact(s.sem.queue, s.threads, Itself)
            && (s.sem.queue != [] ==> s.sem.value <= Number(s.threads, Itself, Testing(true)))
  {
    RunInv(initial, Init(initial, threads), run);
  }

  /** No wakeup is lost: while the value is positive, a sleeper means a thread whose next test completes its P. */
  lemma NobodyStranded(initial: nat, threads: nat, run: seq<Action>)
    requires Legal(Init(initial, threads), run)
    ensures var s := After(Init(initial, threads), run);
            s.sem.value > 0 && s.sem.queue != [] ==>
              exists i: nat :: Can(s, Test(i)) && s.threads[i] == Testing(true) && Do(s, Test(i)).ps == s.ps + 1
  {
    RunInv(initial, Init(initial, threads), run);
    var s := After(Init(initial, threads), run);
    if s.sem.value > 0 && s.sem.queue != [] {
      var i := SomeoneGetsThrough(s.sem, s.threads, Itself);
      assert Can(s, Test(i));
    }
  }
}
